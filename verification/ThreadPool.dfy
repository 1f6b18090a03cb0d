/**
 The work-stealing thread pool, as an interleaving machine of its workers, any number of callers
 of `scheduleById`, and the destructor. A critical section of a queue, a read or write of `stop_`
 and a run of a task are one step each; an attempt to lock a queue may fail at any time.
 */
module ThreadPool {
  import opened Sums
  import opened TaskQueue
  import opened Wrappers

  type Task = nat
  type Items = multiset<Task>

  datatype WorkItem = WorkItem(canSteal: bool, fn: Task)

  datatype Worker =
    | Steal(i: nat)             // try_pop_if on queue (i + id) % n
    | PopOwn                    // pop on the worker's own queue
    | PopFailed                 // reads stop_
    | Holds(item: WorkItem)     // about to run it
    | Exited

  datatype Caller =
    | Outside
    | ReadStop(fn: Task, id: int)
    | TryPush(fn: Task, i: nat)     // try_push on queue i % n
    | PickQueue(fn: Task)           // std::rand() % n
    | PushTo(fn: Task, q: nat)

  datatype Destructor = NotYet | StopQueue(i: nat) | Join(i: nat) | Joined

  datatype State = State(
    steals: bool,
    queues: seq<Guarded<WorkItem>>,
    stop: bool,
    workers: seq<Worker>,
    callers: seq<Caller>,
    destructor: Destructor,
    // the account: what was handed in, refused, pushed in time and too late for its queue, run
    called: Items,
    refused: Items,
    early: seq<Items>,
    late: seq<Items>,
    executed: Items)

  // What one step does: which thread, and how the environment answers.
  datatype Move =
    | Work(w: nat, acquired: bool)
    | Call(c: nat, fn: Option<Task>, id: int)
    | Schedule(c: nat, acquired: bool, pick: nat)
    | Destroy

  function Start(s: State): Worker { if s.steals then Steal(0) else PopOwn }

  ghost predicate Enabled(s: State, m: Move) {
    && |s.queues| == |s.workers| == |s.early| == |s.late| > 0
    && match m
       case Work(w, _) => w < |s.workers| && !s.workers[w].Exited? && (s.workers[w].PopOwn? ==> s.queues[w].Ready())
       case Call(c, _, id) => c < |s.callers| && s.callers[c].Outside? && -1 <= id < |s.queues|
       case Schedule(c, _, pick) =>
         c < |s.callers| && !s.callers[c].Outside? && pick < |s.queues| && (s.callers[c].PushTo? ==> s.callers[c].q < |s.queues|)
       case Destroy =>
         match s.destructor
         case NotYet => true
         case StopQueue(i) => i <= |s.queues|
         case Join(i) => i <= |s.workers| && (i < |s.workers| ==> s.workers[i].Exited?)
         case Joined => false
  }

  function AtWorker(s: State, w: nat, pc: Worker): State
    requires w < |s.workers|
  {
    s.(workers := s.workers[w := pc])
  }

  function AtCaller(s: State, c: nat, pc: Caller): State
    requires c < |s.callers|
  {
    s.(callers := s.callers[c := pc])
  }

  // Taking the front of queue q, by worker w.
  function Take(s: State, w: nat, q: nat): State
    requires w < |s.workers| && q < |s.queues| && s.queues[q].items != []
  {
    AtWorker(s, w, Holds(s.queues[q].items[0])).(queues := s.queues[q := s.queues[q].Pop()])
  }

  // The worker's pop on its own queue has failed: it will not look there again.
  predicate Failed(pc: Worker) { pc.PopFailed? || pc.Exited? }

  // Pushing onto queue q, which ends the call. The push is late if the queue's own worker has given
  // up on it.
  function Push(s: State, c: nat, q: nat, fn: Task): State
    requires c < |s.callers| && q < |s.queues| == |s.workers| == |s.early| == |s.late|
  {
    var t := AtCaller(s, c, Outside).(queues := s.queues[q := s.queues[q].Push(WorkItem(true, fn))]);
    if Failed(s.workers[q]) then t.(late := s.late[q := s.late[q] + multiset{fn}])
    else t.(early := s.early[q := s.early[q] + multiset{fn}])
  }

  // Which queue an attempt is made on: all of them in turn, from a first one on.
  function Turn(i: nat, first: nat, n: nat): (q: nat)
    requires n > 0
    ensures q < n
  {
    (i + first) % n
  }

  function CanSteal(item: WorkItem): bool { item.canSteal }

  ghost function StepWorker(s: State, w: nat, acquired: bool): State
    requires Enabled(s, Work(w, acquired))
  {
    match s.workers[w]
    case Steal(i) =>
      if i >= |s.queues| * 2 then AtWorker(s, w, PopOwn)
      else
        var q := Turn(i, w, |s.queues|);
        if acquired && s.queues[q].Takes(Some(CanSteal)) then Take(s, w, q) else AtWorker(s, w, Steal(i + 1))
    case PopOwn => if s.queues[w].items != [] then Take(s, w, w) else AtWorker(s, w, PopFailed)
    case PopFailed => AtWorker(s, w, if s.stop then Exited else Start(s))
    case Holds(item) => AtWorker(s, w, Start(s)).(executed := s.executed + multiset{item.fn})
  }

  ghost function StepCaller(s: State, c: nat, acquired: bool, pick: nat): State
    requires Enabled(s, Schedule(c, acquired, pick))
  {
    match s.callers[c]
    case ReadStop(fn, id) =>
      if s.stop then AtCaller(s, c, Outside).(refused := s.refused + multiset{fn})
      else AtCaller(s, c, if id != -1 then PushTo(fn, if id < 0 then 0 else id) else if s.steals then TryPush(fn, 0) else PickQueue(fn))
    case TryPush(fn, i) =>
      if i >= |s.queues| * 2 then AtCaller(s, c, PickQueue(fn))
      else if acquired then Push(s, c, Turn(i, 0, |s.queues|), fn)
      else AtCaller(s, c, TryPush(fn, i + 1))
    case PickQueue(fn) => AtCaller(s, c, PushTo(fn, pick))
    case PushTo(fn, q) => Push(s, c, q, fn)
  }

  ghost function StepDestructor(s: State): State
    requires Enabled(s, Destroy)
  {
    match s.destructor
    case NotYet => s.(stop := true, destructor := StopQueue(0))
    case StopQueue(i) =>
      if i < |s.queues| then s.(queues := s.queues[i := s.queues[i].Stop()], destructor := StopQueue(i + 1))
      else s.(destructor := Join(0))
    case Join(i) => s.(destructor := if i < |s.workers| then Join(i + 1) else Joined)
  }

  ghost function Step(s: State, m: Move): State
    requires Enabled(s, m)
  {
    match m
    case Work(w, acquired) => StepWorker(s, w, acquired)
    case Call(c, fn, id) =>
      // a null function is refused at once
      if fn.None? then s else AtCaller(s, c, ReadStop(fn.value, id)).(called := s.called + multiset{fn.value})
    case Schedule(c, acquired, pick) => StepCaller(s, c, acquired, pick)
    case Destroy => StepDestructor(s)
  }

  ghost predicate Init(s: State) {
    && |s.queues| == |s.workers| == |s.early| == |s.late| > 0
    && (forall i :: 0 <= i < |s.queues| ==> s.queues[i] == Guarded([], false))
    && (forall i :: 0 <= i < |s.early| ==> s.early[i] == multiset{})
    && (forall i :: 0 <= i < |s.late| ==> s.late[i] == multiset{})
    && (forall w :: 0 <= w < |s.workers| ==> s.workers[w] == Start(s))
    && (forall c :: 0 <= c < |s.callers| ==> s.callers[c] == Outside)
    && !s.stop && s.destructor == NotYet
    && s.called == multiset{} && s.refused == multiset{} && s.executed == multiset{}
  }

  ghost predicate IsRun(run: seq<State>) {
    && |run| > 0
    && Init(run[0])
    && forall i :: 0 < i < |run| ==> StepAt(run, i)
  }

  ghost predicate StepAt(run: seq<State>, i: nat)
    requires 0 < i < |run|
  {
    CanStep(run[i - 1], run[i])
  }

  ghost predicate CanStep(s: State, s': State) {
    exists m :: Enabled(s, m) && s' == Step(s, m)
  }

  // ------------------------------------------------------------------ counting one task

  function Count(items: seq<WorkItem>, x: Task): nat {
    if items == [] then 0 else Count(items[..|items| - 1], x) + One(items[|items| - 1].fn, x)
  }

  function One(fn: Task, x: Task): nat { if fn == x then 1 else 0 }

  lemma {:induction false} CountTail(items: seq<WorkItem>, x: Task)
    requires items != []
    ensures Count(items, x) == One(items[0].fn, x) + Count(items[1..], x)
  {
    var init := items[..|items| - 1];
    if init != [] {
      CountTail(init, x);
      assert init[1..] == items[1..][..|items| - 2];
    }
  }

  lemma CountPush(items: seq<WorkItem>, item: WorkItem, x: Task)
    ensures Count(items + [item], x) == Count(items, x) + One(item.fn, x)
  {
    assert (items + [item])[..|items|] == items;
  }

  function InQueue(x: Task): Guarded<WorkItem> -> nat { (q: Guarded<WorkItem>) => Count(q.items, x) }

  function InWorker(x: Task): Worker -> nat { (w: Worker) => if w.Holds? then One(w.item.fn, x) else 0 }

  function InCaller(x: Task): Caller -> nat { (c: Caller) => if c.Outside? then 0 else One(c.fn, x) }

  function InItems(x: Task): Items -> nat { (m: Items) => m[x] }

  // How often x is in a queue, in the hands of a worker or a caller, or was pushed.
  function Queued(s: State, x: Task): nat { Total(s.queues, InQueue(x)) }
  function Held(s: State, x: Task): nat { Total(s.workers, InWorker(x)) }
  function Pending(s: State, x: Task): nat { Total(s.callers, InCaller(x)) }
  function Early(s: State, x: Task): nat { Total(s.early, InItems(x)) }
  function Late(s: State, x: Task): nat { Total(s.late, InItems(x)) }
  function Pushed(s: State, x: Task): nat { Early(s, x) + Late(s, x) }

  // ------------------------------------------------------------------ the invariant

  ghost predicate Sized(s: State) {
    |s.queues| == |s.workers| == |s.early| == |s.late| > 0
  }

  // Every push is accounted for.
  ghost predicate Conserved(s: State, x: Task) {
    && Pushed(s, x) == Queued(s, x) + Held(s, x) + s.executed[x]
    && s.called[x] == Pushed(s, x) + s.refused[x] + Pending(s, x)
  }

  // A worker whose pop has failed leaves in its queue only what was pushed late, and without
  // stealing all of that.
  predicate Left(steals: bool, q: Guarded<WorkItem>, late: Items, x: Task) {
    q.stopped && Count(q.items, x) <= late[x] && (!steals ==> Count(q.items, x) == late[x])
  }

  predicate WorkerOk(steals: bool, pc: Worker, q: Guarded<WorkItem>, late: Items, x: Task) {
    && (pc.Steal? ==> steals)
    && if Failed(pc) then Left(steals, q, late, x) else late[x] == 0
  }

  ghost predicate WorkerInv(s: State, w: nat, x: Task)
    requires w < |s.workers| == |s.queues| == |s.late|
  {
    WorkerOk(s.steals, s.workers[w], s.queues[w], s.late[w], x)
  }

  ghost predicate DestructorInv(s: State) {
    match s.destructor
    case NotYet => !s.stop && forall q :: 0 <= q < |s.queues| ==> !s.queues[q].stopped
    case StopQueue(i) => s.stop && i <= |s.queues| && forall q :: 0 <= q < i ==> s.queues[q].stopped
    case Join(i) => s.stop && i <= |s.workers| && forall w :: 0 <= w < i ==> s.workers[w].Exited?
    case Joined => s.stop && forall w :: 0 <= w < |s.workers| ==> s.workers[w].Exited?
  }

  ghost predicate CallerInv(pc: Caller, n: nat) {
    match pc
    case ReadStop(_, id) => -1 <= id < n
    case PushTo(_, q) => q < n
    case _ => true
  }

  ghost predicate Inv(s: State, x: Task) {
    && Sized(s)
    && Conserved(s, x)
    && (forall w :: 0 <= w < |s.workers| ==> WorkerInv(s, w, x))
    && (forall c :: 0 <= c < |s.callers| ==> CallerInv(s.callers[c], |s.queues|))
    && DestructorInv(s)
  }

  lemma {:induction false} InitInv(s: State, x: Task)
    requires Init(s)
    ensures Inv(s, x)
  {
    TotalZero(s.queues, InQueue(x));
    TotalZero(s.workers, InWorker(x));
    TotalZero(s.callers, InCaller(x));
    TotalZero(s.early, InItems(x));
    TotalZero(s.late, InItems(x));
  }

  // ------------------------------------------------------------------ it is kept

  // A step that concerns worker w and queue q alone.
  lemma {:induction false} WorkersKept(s: State, s': State, w: nat, q: nat, x: Task)
    requires Inv(s, x) && Sized(s') && |s'.workers| == |s.workers| && s'.steals == s.steals
    requires w < |s.workers| && q < |s.workers|
    requires forall v :: 0 <= v < |s.workers| && v != w ==> s'.workers[v] == s.workers[v]
    requires forall v :: 0 <= v < |s.workers| && v != q ==> s'.queues[v] == s.queues[v] && s'.late[v] == s.late[v]
    requires WorkerInv(s', w, x) && WorkerInv(s', q, x)
    ensures forall v :: 0 <= v < |s'.workers| ==> WorkerInv(s', v, x)
  {
    forall v | 0 <= v < |s'.workers|
      ensures WorkerInv(s', v, x)
    {
      assert WorkerInv(s, v, x);
    }
  }

  lemma {:induction false} TakeKeepsInv(s: State, w: nat, q: nat, x: Task)
    requires Inv(s, x) && w < |s.workers| && q < |s.queues| && s.queues[q].items != []
    requires s.workers[w].Steal? || (s.workers[w].PopOwn? && q == w)
    ensures Inv(Take(s, w, q), x)
  {
    TakeCounts(s, w, q, x);
    CountTail(s.queues[q].items, x);
    assert WorkerInv(s, w, x) && WorkerInv(s, q, x);
    WorkersKept(s, Take(s, w, q), w, q, x);
  }

  lemma {:induction false} TakeCounts(s: State, w: nat, q: nat, x: Task)
    requires Conserved(s, x) && w < |s.workers| && q < |s.queues| && s.queues[q].items != [] && !s.workers[w].Holds?
    ensures Conserved(Take(s, w, q), x)
  {
    TotalUpdate(s.queues, q, s.queues[q].Pop(), InQueue(x));
    TotalUpdate(s.workers, w, Holds(s.queues[q].items[0]), InWorker(x));
    CountTail(s.queues[q].items, x);
  }

  lemma {:induction false} MoveKeepsInv(s: State, w: nat, pc: Worker, x: Task)
    requires Inv(s, x) && w < |s.workers|
    requires !s.workers[w].Holds? && !pc.Holds? && !s.workers[w].Exited?
    requires WorkerOk(s.steals, pc, s.queues[w], s.late[w], x)
    ensures Inv(AtWorker(s, w, pc), x)
  {
    TotalUpdate(s.workers, w, pc, InWorker(x));
    WorkersKept(s, AtWorker(s, w, pc), w, w, x);
  }

  lemma {:induction false} RunKeepsInv(s: State, w: nat, x: Task)
    requires Inv(s, x) && w < |s.workers| && s.workers[w].Holds?
    ensures Inv(AtWorker(s, w, Start(s)).(executed := s.executed + multiset{s.workers[w].item.fn}), x)
  {
    assert WorkerInv(s, w, x);
    TotalUpdate(s.workers, w, Start(s), InWorker(x));
    WorkersKept(s, AtWorker(s, w, Start(s)).(executed := s.executed + multiset{s.workers[w].item.fn}), w, w, x);
  }

  lemma {:induction false} StealKeepsInv(s: State, w: nat, acquired: bool, x: Task)
    requires Inv(s, x) && Enabled(s, Work(w, acquired)) && s.workers[w].Steal?
    ensures Inv(StepWorker(s, w, acquired), x)
  {
    assert WorkerInv(s, w, x);
    var i := s.workers[w].i;
    var q := Turn(i, w, |s.queues|);
    if i < |s.queues| * 2 && acquired && s.queues[q].Takes(Some(CanSteal)) {
      TakeKeepsInv(s, w, q, x);
    } else {
      MoveKeepsInv(s, w, if i >= |s.queues| * 2 then PopOwn else Steal(i + 1), x);
    }
  }

  lemma {:induction false} WorkerKeepsInv(s: State, w: nat, acquired: bool, x: Task)
    requires Inv(s, x) && Enabled(s, Work(w, acquired))
    ensures Inv(StepWorker(s, w, acquired), x)
  {
    assert WorkerInv(s, w, x);
    match s.workers[w]
    case Steal(i) => StealKeepsInv(s, w, acquired, x);
    case PopOwn =>
      if s.queues[w].items != [] {
        TakeKeepsInv(s, w, w, x);
      } else {
        assert s.queues[w].Ready() && Count([], x) == 0;
        MoveKeepsInv(s, w, PopFailed, x);
      }
    case PopFailed =>
      assert s.queues[w].stopped && s.stop;
      MoveKeepsInv(s, w, Exited, x);
    case Holds(item) => RunKeepsInv(s, w, x);
  }

  lemma {:induction false} PushIsBooked(s: State, c: nat, q: nat, fn: Task, x: Task)
    requires Sized(s) && c < |s.callers| && q < |s.queues|
    ensures Pushed(Push(s, c, q, fn), x) == Pushed(s, x) + One(fn, x)
  {
    var one := multiset{fn};
    if Failed(s.workers[q]) {
      TotalUpdate(s.late, q, s.late[q] + one, InItems(x));
    } else {
      TotalUpdate(s.early, q, s.early[q] + one, InItems(x));
    }
  }

  lemma {:induction false} PushCounts(s: State, c: nat, q: nat, fn: Task, x: Task)
    requires Inv(s, x) && c < |s.callers| && q < |s.queues| && !s.callers[c].Outside? && s.callers[c].fn == fn
    ensures Conserved(Push(s, c, q, fn), x)
  {
    CountPush(s.queues[q].items, WorkItem(true, fn), x);
    TotalUpdate(s.queues, q, s.queues[q].Push(WorkItem(true, fn)), InQueue(x));
    TotalUpdate(s.callers, c, Outside, InCaller(x));
    PushIsBooked(s, c, q, fn, x);
  }

  lemma {:induction false} PushKeepsInv(s: State, c: nat, q: nat, fn: Task, x: Task)
    requires Inv(s, x) && c < |s.callers| && q < |s.queues| && !s.callers[c].Outside? && s.callers[c].fn == fn
    ensures Inv(Push(s, c, q, fn), x)
  {
    var s' := Push(s, c, q, fn);
    PushCounts(s, c, q, fn, x);
    assert WorkerInv(s, q, x);
    PushKeepsWorker(s.steals, s.workers[q], s.queues[q], s.late[q], WorkItem(true, fn), x);
    WorkersKept(s, s', q, q, x);
    forall d | 0 <= d < |s'.callers|
      ensures CallerInv(s'.callers[d], |s'.queues|)
    {
      assert d != c ==> s'.callers[d] == s.callers[d];
    }
  }

  // What a push does to the queue's own worker.
  lemma {:induction false} PushKeepsWorker(steals: bool, pc: Worker, q: Guarded<WorkItem>, late: Items, item: WorkItem, x: Task)
    requires WorkerOk(steals, pc, q, late, x)
    ensures WorkerOk(steals, pc, q.Push(item), if Failed(pc) then late + multiset{item.fn} else late, x)
  {
    CountPush(q.items, item, x);
  }

  // A caller moving on, with its task or with a task handed in or refused.
  lemma {:induction false} CallerMoves(s: State, c: nat, pc: Caller, called: Items, refused: Items, x: Task)
    requires Inv(s, x) && c < |s.callers| && CallerInv(pc, |s.queues|)
    requires called[x] + InCaller(x)(s.callers[c]) + s.refused[x] == s.called[x] + InCaller(x)(pc) + refused[x]
    ensures Inv(AtCaller(s, c, pc).(called := called, refused := refused), x)
  {
    var s' := AtCaller(s, c, pc).(called := called, refused := refused);
    TotalUpdate(s.callers, c, pc, InCaller(x));
    forall w | 0 <= w < |s.workers|
      ensures WorkerInv(s', w, x)
    {
      assert WorkerInv(s, w, x);
    }
  }

  lemma {:induction false} CallerKeepsInv(s: State, c: nat, acquired: bool, pick: nat, x: Task)
    requires Inv(s, x) && Enabled(s, Schedule(c, acquired, pick))
    ensures Inv(StepCaller(s, c, acquired, pick), x)
  {
    assert CallerInv(s.callers[c], |s.queues|);
    var s' := StepCaller(s, c, acquired, pick);
    match s.callers[c]
    case ReadStop(fn, id) => CallerMoves(s, c, s'.callers[c], s'.called, s'.refused, x);
    case TryPush(fn, i) =>
      if i < |s.queues| * 2 && acquired {
        PushKeepsInv(s, c, Turn(i, 0, |s.queues|), fn, x);
      } else {
        CallerMoves(s, c, s'.callers[c], s.called, s.refused, x);
      }
    case PickQueue(fn) => CallerMoves(s, c, s'.callers[c], s.called, s.refused, x);
    case PushTo(fn, q) => PushKeepsInv(s, c, q, fn, x);
  }

  lemma {:induction false} CallKeepsInv(s: State, c: nat, fn: Option<Task>, id: int, x: Task)
    requires Inv(s, x) && Enabled(s, Call(c, fn, id))
    ensures Inv(Step(s, Call(c, fn, id)), x)
  {
    if fn.Some? {
      CallerMoves(s, c, ReadStop(fn.value, id), s.called + multiset{fn.value}, s.refused, x);
    }
  }

  lemma {:induction false} DestructorKeepsInv(s: State, x: Task)
    requires Inv(s, x) && Enabled(s, Destroy)
    ensures Inv(StepDestructor(s), x)
  {
    var s' := StepDestructor(s);
    if s.destructor.StopQueue? && s.destructor.i < |s.queues| {
      TotalUpdate(s.queues, s.destructor.i, s'.queues[s.destructor.i], InQueue(x));
    }
    forall w | 0 <= w < |s.workers|
      ensures WorkerInv(s', w, x)
    {
      assert WorkerInv(s, w, x);
    }
  }

  // ------------------------------------------------------------------ every run

  lemma {:induction false} StepKeepsInv(s: State, m: Move, x: Task)
    requires Inv(s, x) && Enabled(s, m)
    ensures Inv(Step(s, m), x)
  {
    match m
    case Work(w, acquired) => WorkerKeepsInv(s, w, acquired, x);
    case Call(c, fn, id) => CallKeepsInv(s, c, fn, id, x);
    case Schedule(c, acquired, pick) => CallerKeepsInv(s, c, acquired, pick, x);
    case Destroy => DestructorKeepsInv(s, x);
  }

  lemma MoveOf(run: seq<State>, i: nat) returns (m: Move)
    requires IsRun(run) && 0 < i < |run|
    ensures Enabled(run[i - 1], m) && run[i] == Step(run[i - 1], m)
  {
    assert StepAt(run, i);
    m :| Enabled(run[i - 1], m) && run[i] == Step(run[i - 1], m);
  }

  lemma {:induction false} RunInv(run: seq<State>, i: nat, x: Task)
    requires IsRun(run) && i < |run|
    ensures Inv(run[i], x)
  {
    if i == 0 {
      InitInv(run[0], x);
    } else {
      RunInv(run, i - 1, x);
      var m := MoveOf(run, i);
      StepKeepsInv(run[i - 1], m, x);
    }
  }

  lemma {:induction false} QueuedIsLate(queues: seq<Guarded<WorkItem>>, late: seq<Items>, steals: bool, x: Task)
    requires |queues| == |late|
    requires forall q :: 0 <= q < |queues| ==> Left(steals, queues[q], late[q], x)
    ensures Total(queues, InQueue(x)) <= Total(late, InItems(x))
    ensures !steals ==> Total(queues, InQueue(x)) == Total(late, InItems(x))
  {
    var n := |queues|;
    if n > 0 {
      assert Left(steals, queues[n - 1], late[n - 1], x);
      QueuedIsLate(queues[..n - 1], late[..n - 1], steals, x);
    }
  }

  // What is kept on every run, for every task x.
  ghost predicate Safe(s: State, x: Task) {
    && Sized(s)
    // no task is lost, invented or run twice
    && Pushed(s, x) == Queued(s, x) + Held(s, x) + s.executed[x]
    && s.called[x] == Pushed(s, x) + s.refused[x] + Pending(s, x)
    // a failed pop means the pool is stopping, and that nothing but late pushes is left behind
    && (forall w :: 0 <= w < |s.workers| && Failed(s.workers[w]) ==>
          s.stop && Left(s.steals, s.queues[w], s.late[w], x))
    // a push onto a queue that is not stopped is not late
    && (forall q :: 0 <= q < |s.queues| && !s.queues[q].stopped ==> !Failed(s.workers[q]))
    // after the joins, what was pushed in time has run, as often as pushed; nothing has run more
    // often than it was pushed, and without stealing what was late has not run at all
    && (s.destructor.Joined? ==>
          && Held(s, x) == 0
          && Early(s, x) <= s.executed[x] <= Pushed(s, x)
          && (!s.steals ==> s.executed[x] == Early(s, x)))
  }

  lemma {:induction false} EveryRunIsSafe(run: seq<State>, i: nat, x: Task)
    requires IsRun(run) && i < |run|
    ensures Safe(run[i], x)
  {
    RunInv(run, i, x);
    var s := run[i];
    forall w | 0 <= w < |s.workers|
      ensures Failed(s.workers[w]) ==> s.stop && Left(s.steals, s.queues[w], s.late[w], x)
      ensures !s.queues[w].stopped ==> !Failed(s.workers[w])
    {
      assert WorkerInv(s, w, x);
    }
    if s.destructor.Joined? {
      TotalZero(s.workers, InWorker(x));
      QueuedIsLate(s.queues, s.late, s.steals, x);
    }
  }

  // On every run, a push onto a queue that is not stopped yet is in time.
  lemma {:induction false} PushBeforeStopIsInTime(run: seq<State>, i: nat, c: nat, q: nat, fn: Task)
    requires IsRun(run) && i < |run| && c < |run[i].callers| && q < |run[i].queues| && Sized(run[i])
    requires !run[i].queues[q].stopped
    ensures Push(run[i], c, q, fn).early == run[i].early[q := run[i].early[q] + multiset{fn}]
    ensures Push(run[i], c, q, fn).late == run[i].late
  {
    EveryRunIsSafe(run, i, fn);
  }

  // ------------------------------------------------------------------ when nothing is lost

  // No call is past its look at `stop_`.
  ghost predicate Uncommitted(s: State) {
    NonePast(s.callers)
  }

  ghost predicate NonePast(callers: seq<Caller>) {
    forall c :: 0 <= c < |callers| ==> callers[c].Outside? || callers[c].ReadStop?
  }

  // The pool is stopping, and nothing will be pushed any more.
  ghost predicate Closed(s: State, late: seq<Items>) {
    s.stop && Uncommitted(s) && s.late == late
  }

  lemma {:induction false} ClosedStays(s: State, m: Move, late: seq<Items>)
    requires Closed(s, late) && Enabled(s, m)
    ensures Closed(Step(s, m), late)
  {
    match m
    case Work(w, acquired) =>
    case Call(c, fn, id) =>
    case Schedule(c, acquired, pick) => assert s.callers[c].ReadStop?;
    case Destroy =>
  }

  lemma {:induction false} ClosedOnTheRun(run: seq<State>, j: nat, i: nat)
    requires IsRun(run) && j <= i < |run| && Closed(run[j], run[j].late)
    ensures Closed(run[i], run[j].late)
    decreases i - j
  {
    if j < i {
      ClosedOnTheRun(run, j, i - 1);
      var m := MoveOf(run, i);
      ClosedStays(run[i - 1], m, run[j].late);
    }
  }

  lemma {:induction false} NothingIsLateYet(s: State, x: Task)
    requires Inv(s, x) && s.destructor.NotYet?
    ensures Total(s.late, InItems(x)) == 0
  {
    forall w | 0 <= w < |s.workers|
      ensures s.late[w][x] == 0
    {
      assert WorkerInv(s, w, x);
    }
    TotalZero(s.late, InItems(x));
  }

  lemma {:induction false} DestructorStarts(run: seq<State>, j: nat)
    requires IsRun(run) && j + 1 < |run| && Uncommitted(run[j])
    requires run[j].destructor.NotYet? && !run[j + 1].destructor.NotYet?
    ensures Closed(run[j + 1], run[j].late) && run[j + 1].late == run[j].late
  {
    var m := MoveOf(run, j + 1);
    assert m == Destroy;
  }

  // If no call is past its look at `stop_` when the destructor starts, then after the joins every
  // task that was not refused has run, as often as it was handed in.
  lemma {:induction false} NothingIsLost(run: seq<State>, j: nat, i: nat, x: Task)
    requires IsRun(run) && j < i < |run|
    requires run[j].destructor.NotYet? && !run[j + 1].destructor.NotYet? && Uncommitted(run[j])
    requires run[i].destructor.Joined?
    ensures run[i].called[x] == run[i].executed[x] + run[i].refused[x] + Pending(run[i], x)
    ensures (forall c :: 0 <= c < |run[i].callers| ==> run[i].callers[c].Outside?) ==>
              run[i].called[x] == run[i].executed[x] + run[i].refused[x]
  {
    RunInv(run, j, x);
    NothingIsLateYet(run[j], x);
    DestructorStarts(run, j);
    ClosedOnTheRun(run, j + 1, i);
    EveryRunIsSafe(run, i, x);
    if forall c :: 0 <= c < |run[i].callers| ==> run[i].callers[c].Outside? {
      TotalZero(run[i].callers, InCaller(x));
    }
  }

  lemma {:induction false} GoOn(run: seq<State>, m: Move) returns (run': seq<State>)
    requires IsRun(run) && Enabled(run[|run| - 1], m)
    ensures IsRun(run') && run'[|run'| - 1] == Step(run[|run| - 1], m)
  {
    var s := run[|run| - 1];
    run' := run + [Step(s, m)];
    forall i | 0 < i < |run'|
      ensures StepAt(run', i)
    {
      assert i < |run| ==> StepAt(run, i);
    }
  }

  // One worker without stealing, and one caller with task 7.
  ghost predicate Lone(s: State, w: Worker, c: Caller, d: Destructor) {
    && |s.queues| == |s.workers| == |s.callers| == |s.early| == |s.late| == 1 && !s.steals
    && s.workers[0] == w && s.callers[0] == c && s.destructor == d
    && s.stop == !d.NotYet?
    && s.called == multiset{7} && s.refused == s.executed == multiset{}
  }

  // The caller looks at `stop_`; then the destructor sets it and stops the queue.
  lemma {:induction false} CallerIsLate() returns (run: seq<State>)
    ensures IsRun(run)
    ensures Lone(run[|run| - 1], PopOwn, PushTo(7, 0), StopQueue(1)) && run[|run| - 1].queues[0] == Guarded([], true)
  {
    var s := State(false, [Guarded([], false)], false, [PopOwn], [Outside], NotYet, multiset{}, multiset{}, [multiset{}], [multiset{}], multiset{});
    run := [s];
    run := GoOn(run, Call(0, Some(7), 0));
    assert Lone(run[|run| - 1], PopOwn, ReadStop(7, 0), NotYet);
    run := GoOn(run, Schedule(0, true, 0));
    assert Lone(run[|run| - 1], PopOwn, PushTo(7, 0), NotYet);
    run := GoOn(run, Destroy);
    run := GoOn(run, Destroy);
  }

  // The worker finds its queue empty and exits; only then the caller pushes.
  lemma {:induction false} WorkerIsGone() returns (run: seq<State>)
    ensures IsRun(run) && Lone(run[|run| - 1], Exited, Outside, Join(0))
  {
    run := CallerIsLate();
    run := GoOn(run, Destroy);
    assert Lone(run[|run| - 1], PopOwn, PushTo(7, 0), Join(0));
    run := GoOn(run, Work(0, true));
    assert Lone(run[|run| - 1], PopFailed, PushTo(7, 0), Join(0));
    run := GoOn(run, Work(0, true));
    run := GoOn(run, Schedule(0, true, 0));
  }

  // Otherwise a task may be lost: it was neither refused nor run, and everybody is done.
  lemma {:induction false} TaskMayBeLost() returns (run: seq<State>)
    ensures IsRun(run)
    ensures var s := run[|run| - 1];
            && s.destructor.Joined? && (forall c :: 0 <= c < |s.callers| ==> s.callers[c].Outside?)
            && s.called == multiset{7} && s.refused == multiset{} && s.executed == multiset{}
  {
    run := WorkerIsGone();
    run := GoOn(run, Destroy);
    assert Lone(run[|run| - 1], Exited, Outside, Join(1));
    run := GoOn(run, Destroy);
    assert Lone(run[|run| - 1], Exited, Outside, Joined);
  }

  // A worker goes away only after a pop that found its own queue stopped and empty.
  lemma {:induction false} ExitsOnlyWhenEmpty(s: State, w: nat, acquired: bool)
    requires Enabled(s, Work(w, acquired))
    ensures StepWorker(s, w, acquired).workers[w].PopFailed? <==>
            s.workers[w].PopOwn? && s.queues[w].items == [] && s.queues[w].stopped
    ensures StepWorker(s, w, acquired).workers[w].Exited? ==> s.workers[w].PopFailed?
  {
    if s.workers[w].PopOwn? {
      assert s.queues[w].Ready();
    }
  }

  // ------------------------------------------------------------------ where a task goes

  ghost predicate InCall(s: State, c: nat) { c < |s.callers| && !s.callers[c].Outside? }

  lemma {:induction false} OthersKeepCaller(s: State, m: Move, c: nat)
    requires Enabled(s, m) && InCall(s, c) && !(m.Schedule? && m.c == c)
    ensures |Step(s, m).callers| == |s.callers| && Step(s, m).callers[c] == s.callers[c]
  {
    match m
    case Work(_, _) =>
    case Call(_, _, _) =>
    case Schedule(_, _, _) =>
    case Destroy =>
  }

  ghost predicate AskedFor(pc: Caller, fn: Task, id: nat) { pc == ReadStop(fn, id) || pc == PushTo(fn, id) }

  // How a call with an explicit id ends: with a refusal, which leaves the queues alone, or with the
  // task at the end of that queue and of no other.
  ghost predicate Ended(s: State, s': State, fn: Task, id: nat) {
    || (s'.refused == s.refused + multiset{fn} && s'.queues == s.queues)
    || (id < |s.queues| && s'.refused == s.refused && s'.queues == s.queues[id := s.queues[id].Push(WorkItem(true, fn))])
  }

  lemma {:induction false} AskedStep(s: State, m: Move, c: nat, fn: Task, id: nat)
    requires Enabled(s, m) && InCall(s, c) && AskedFor(s.callers[c], fn, id)
    ensures var s' := Step(s, m);
      c < |s'.callers| && if s'.callers[c].Outside? then Ended(s, s', fn, id) else AskedFor(s'.callers[c], fn, id)
  {
    if !(m.Schedule? && m.c == c) {
      OthersKeepCaller(s, m, c);
    }
  }

  lemma {:induction false} ExplicitCall(run: seq<State>, i: nat, j: nat, c: nat, fn: Task, id: nat)
    requires IsRun(run) && i <= j < |run| && (forall k :: i <= k <= j ==> InCall(run[k], c))
    requires c < |run[i].callers| && run[i].callers[c] == ReadStop(fn, id)
    ensures InCall(run[j], c) && AskedFor(run[j].callers[c], fn, id)
    decreases j
  {
    if i < j {
      ExplicitCall(run, i, j - 1, c, fn, id);
      var m := MoveOf(run, j);
      AskedStep(run[j - 1], m, c, fn, id);
    }
  }

  // On every run, a call with an explicit id ends like that, whatever the others do meanwhile.
  lemma {:induction false} ExplicitIdIsObeyed(run: seq<State>, i: nat, j: nat, c: nat, fn: Task, id: nat)
    requires IsRun(run) && i < j < |run| && (forall k :: i <= k < j ==> InCall(run[k], c))
    requires c < |run[i].callers| && run[i].callers[c] == ReadStop(fn, id)
    requires c < |run[j].callers| && run[j].callers[c].Outside?
    ensures Ended(run[j - 1], run[j], fn, id)
  {
    ExplicitCall(run, i, j - 1, c, fn, id);
    var m := MoveOf(run, j);
    AskedStep(run[j - 1], m, c, fn, id);
  }

  lemma {:induction false} RefusalStep(s: State, m: Move)
    requires Enabled(s, m)
    ensures s.stop ==> Step(s, m).stop
    ensures Step(s, m).refused != s.refused ==> s.stop
  {
    match m
    case Work(_, _) =>
    case Call(_, _, _) =>
    case Schedule(_, _, _) =>
    case Destroy =>
  }

  // On every run, nothing is refused before the pool is stopping.
  lemma {:induction false} RefusedOnlyWhenStopping(run: seq<State>, i: nat)
    requires IsRun(run) && i < |run| && run[i].refused != multiset{}
    ensures run[i].stop
  {
    if i > 0 {
      var m := MoveOf(run, i);
      RefusalStep(run[i - 1], m);
      if run[i - 1].refused != multiset{} {
        RefusedOnlyWhenStopping(run, i - 1);
      }
    }
  }
}
