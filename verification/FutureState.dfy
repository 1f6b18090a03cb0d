/**
 The state shared by a future and the copies of its promise, as an interleaving machine: every
 atomic operation is one step of one agent. An agent is whoever holds a reference: a copy of the
 promise, the future, or a task that the executor has accepted.

 The typing slips of the source (the moved-from guard, the switch on the state) are modelled as
 they were meant.
 */
module FutureState {
  import opened Wrappers

  datatype Word = Start | OnlyResult | OnlyContinuation | Finished {
    predicate HasResult() { OnlyResult? || Finished? }
    predicate HasContinuation() { OnlyContinuation? || Finished? }
  }

  // The union member that holds the continuation.
  datatype Lifetime = Absent | Alive | Destroyed

  // Where setResult and scheduleContinuation return to.
  datatype Return = ToPromise | ToDrop | ToFuture | ToExecutor

  // The guards of scheduleContinuation: attachOne, refContinuation, the call, derefContinuation,
  // detachOne; in the scheduled case two of them, of which one goes to the executor.
  datatype Stage =
    | Attach | Ref | Call | Deref | Detach
    | Attach1 | Ref1 | Attach2 | Ref2 | Schedule
    | FailedDeref | FailedDetach

  datatype PC<V> =
    | Promise                                  // holds a promise
    | Copying                                  // attached_.fetch_add(1), for the copy
    | DropPromise                              // promiseRef_.fetch_sub(1)
    | DropCheck(last: bool)                    // hasResult()
    | SetStore(v: V, ret: Return)              // try_value_ = value
    | SetLoad(ret: Return)                     // state_.load()
    | SetStart(ret: Return)                    // CAS(START, ONLY_RESULT)
    | SetFinish(ret: Return)                   // CAS(ONLY_CONTINUATION, DONE)
    | Future                                   // holds the future
    | ContBuild                                // construct the continuation
    | ContLoad                                 // state_.load()
    | ContStart                                // CAS(START, ONLY_CONTINUATION)
    | ContFinish                               // CAS(ONLY_RESULT, DONE)
    | Choose(ret: Return)                      // inline or scheduled?
    | Guard(stage: Stage, ret: Return)
    | Release                                  // attached_.fetch_sub(1)
    | Gone
    | Failed                                   // "State Transfer Error"

  datatype Trigger = Trigger(ret: Return, inExecutor: bool)

  // What the executor has said to the job.
  datatype Job = Unasked | Accepted | Refused

  datatype State<V> = State(
    word: Word,
    attached: nat,                 // 8 bits
    continuationRef: nat,          // 8 bits
    promiseRef: int,
    value: Option<V>,
    continuation: Lifetime,
    hasExecutor: bool,
    forceSched: bool,
    broken: V,                     // the exception of a broken promise
    pcs: seq<PC<V>>,
    // What has happened so far.
    claimed: bool,                 // setResult has been called, or the last promise has broken
    contClaimed: bool,             // setContinuation has been called
    sent: Option<V>,               // what it was called with
    result: Option<V>,             // what was stored
    trigger: Option<Trigger>,      // who found both there, and so has the continuation called
    job: Job,
    calls: seq<V>,                 // what the continuation was called with
    made: seq<Return>,             // who made those calls; ToExecutor is the agent that the executor started
    destructions: nat,             // of the continuation
    deletions: nat)                // of the state

  // The caller's part: a promise is used for at most one setResult, the future for at most one
  // setContinuation. The environment decides where a thread runs and what the executor accepts.
  datatype Move<V> =
    | CallSetResult(v: V) | CopyPromise | CallDropPromise
    | CallSetContinuation | DropFuture
    | Advance(inExecutor: bool, accepted: bool)

  ghost predicate Ready<V>(s: State<V>, pc: PC<V>, m: Move<V>) {
    match m
    case CallSetResult(_) => pc.Promise? && !s.claimed
    case CopyPromise => pc.Promise?
    case CallDropPromise => pc.Promise?
    case CallSetContinuation => pc.Future? && !s.contClaimed
    case DropFuture => pc.Future?
    case Advance(_, _) =>
      && !pc.Promise? && !pc.Future? && !pc.Gone? && !pc.Failed?
      && (pc.Guard? && pc.stage.Call? ==> s.value.Some?)
  }

  ghost predicate Enabled<V>(s: State<V>, t: nat, m: Move<V>) { t < |s.pcs| && Ready(s, s.pcs[t], m) }

  // The counters have 8 bits.
  function Increment(x: nat): nat { if x == 255 then 0 else x + 1 }

  function Decrement(x: nat): nat { if x == 0 then 255 else x - 1 }

  // What an agent does in one step: to the state, where it goes, and the agent it starts.
  datatype Act<V> = Act(s: State<V>, pc: PC<V>, started: Option<PC<V>>)

  function To<V>(s: State<V>, pc: PC<V>): Act<V> { Act(s, pc, None) }

  function Back<V>(ret: Return): PC<V> {
    match ret
    case ToPromise => Promise
    case ToDrop => Release
    case ToFuture => Future
    case ToExecutor => Gone
  }

  function AttachOne<V>(s: State<V>): State<V> { s.(attached := Increment(s.attached)) }

  function DetachOne<V>(s: State<V>): State<V> {
    s.(attached := Decrement(s.attached), deletions := s.deletions + if s.attached == 1 then 1 else 0)
  }

  function RefContinuation<V>(s: State<V>): State<V> { s.(continuationRef := Increment(s.continuationRef)) }

  function DerefContinuation<V>(s: State<V>): State<V> {
    if s.continuationRef == 1
    then s.(continuationRef := 0, continuation := Destroyed, destructions := s.destructions + 1)
    else s.(continuationRef := Decrement(s.continuationRef))
  }

  ghost function ActOf<V>(s: State<V>, pc: PC<V>, m: Move<V>): Act<V>
    requires Ready(s, pc, m)
  {
    match m
    case CallSetResult(v) => To(s.(claimed := true, sent := Some(v)), SetStore(v, ToPromise))
    case CopyPromise => To(s.(promiseRef := s.promiseRef + 1), Copying)
    case CallDropPromise => To(s, DropPromise)
    case CallSetContinuation => To(s.(contClaimed := true), ContBuild)
    case DropFuture => To(s, Release)
    case Advance(inExecutor, accepted) =>
      match pc
      case Copying => Act(AttachOne(s), Promise, Some(Promise))
      case DropPromise => To(s.(promiseRef := s.promiseRef - 1), DropCheck(s.promiseRef == 1))
      case DropCheck(last) =>
        if !s.word.HasResult() && last then To(s.(claimed := true, sent := Some(s.broken)), SetStore(s.broken, ToDrop)) else To(s, Release)
      case SetStore(v, ret) => To(s.(value := Some(v), result := Some(v)), SetLoad(ret))
      case SetLoad(ret) => To(s, if s.word.Start? then SetStart(ret) else if s.word.OnlyContinuation? then SetFinish(ret) else Failed)
      case SetStart(ret) => if s.word.Start? then To(s.(word := OnlyResult), Back(ret)) else To(s, SetFinish(ret))
      case SetFinish(ret) => if s.word.OnlyContinuation? then To(s.(word := Finished), Choose(ret)) else To(s, Failed)
      case ContBuild => To(s.(continuation := Alive), ContLoad)
      case ContLoad => To(s, if s.word.Start? then ContStart else if s.word.OnlyResult? then ContFinish else Failed)
      case ContStart => if s.word.Start? then To(s.(word := OnlyContinuation), Future) else To(s, ContFinish)
      case ContFinish => if s.word.OnlyResult? then To(s.(word := Finished), Choose(ToFuture)) else To(s, Failed)
      case Choose(ret) =>
        To(s.(trigger := Some(Trigger(ret, inExecutor))),
           Guard(if !s.forceSched && (!s.hasExecutor || ret == ToFuture || inExecutor) then Attach else Attach1, ret))
      case Guard(stage, ret) => GuardAct(s, stage, ret, accepted)
      case Release => To(DetachOne(s), Gone)
  }

  ghost function GuardAct<V>(s: State<V>, stage: Stage, ret: Return, accepted: bool): Act<V>
    requires stage.Call? ==> s.value.Some?
  {
    match stage
    case Attach => To(AttachOne(s), Guard(Ref, ret))
    case Ref => To(RefContinuation(s), Guard(Call, ret))
    case Call => To(s.(calls := s.calls + [s.value.value], made := s.made + [ret]), Guard(Deref, ret))
    case Deref => To(DerefContinuation(s), Guard(Detach, ret))
    case Detach => To(DetachOne(s), Back(ret))
    case Attach1 => To(AttachOne(s), Guard(Ref1, ret))
    case Ref1 => To(RefContinuation(s), Guard(Attach2, ret))
    case Attach2 => To(AttachOne(s), Guard(Ref2, ret))
    case Ref2 => To(RefContinuation(s), Guard(Schedule, ret))
    case Schedule =>
      // The executor takes the job, with one of the guards, or destroys it; then the call is made here.
      if accepted then Act(s.(job := Accepted), Guard(Deref, ret), Some(Guard(Call, ToExecutor)))
      else To(s.(job := Refused), Guard(FailedDeref, ret))
    case FailedDeref => To(DerefContinuation(s), Guard(FailedDetach, ret))
    case FailedDetach => To(DetachOne(s), Guard(Call, ret))
  }

  function Moved<V>(pcs: seq<PC<V>>, t: nat, a: Act<V>): seq<PC<V>>
    requires t < |pcs|
  {
    pcs[t := a.pc] + if a.started.Some? then [a.started.value] else []
  }

  ghost function Step<V>(s: State<V>, t: nat, m: Move<V>): State<V>
    requires Enabled(s, t, m)
  {
    var a := ActOf(s, s.pcs[t], m);
    a.s.(pcs := Moved(s.pcs, t, a))
  }

  // A promise and its future.
  ghost predicate Init<V>(s: State<V>) {
    && s.word == Start && s.attached == 2 && s.continuationRef == 0 && s.promiseRef == 1
    && s.value == None && s.continuation == Absent && s.pcs == [Promise, Future]
    && !s.claimed && !s.contClaimed && s.sent == None && s.result == None && s.calls == [] && s.destructions == 0 && s.deletions == 0
    && s.trigger == None && s.job == Unasked && s.made == []
  }

  ghost predicate CanStep<V(!new)>(s: State<V>, s': State<V>) {
    exists t, m :: Enabled(s, t, m) && s' == Step(s, t, m)
  }

  ghost predicate IsRun<V(!new)>(run: seq<State<V>>) {
    && |run| > 0
    && Init(run[0])
    && forall i :: 0 < i < |run| ==> StepAt(run, i)
  }

  ghost predicate StepAt<V(!new)>(run: seq<State<V>>, i: nat)
    requires 0 < i < |run|
  {
    CanStep(run[i - 1], run[i])
  }

  // ---------------------------------------------------------------------------------------
  // Counting
  // ---------------------------------------------------------------------------------------

  // What an agent contributes: references, calls it will still make, and where it is.
  datatype Sum = Sum(held: Held := Held(), setter: Setters := Setters(), cont: Continuers := Continuers(), run: Runners := Runners())

  datatype Held = Held(
    attached: int := 0,         // references to the state
    refs: int := 0,             // references to the continuation
    derefs: int := 0,           // references to the continuation it has or will have
    promises: int := 0)

  datatype Setters = Setters(
    setting: int := 0,          // inside setResult
    storing: int := 0,          // before the value is stored
    setFinishing: int := 0,     // at the second CAS of setResult
    last: int := 0)             // has dropped the last promise

  datatype Continuers = Continuers(
    continuing: int := 0,       // inside setContinuation
    building: int := 0,         // before the continuation is constructed
    contFinishing: int := 0)    // at the second CAS of setContinuation

  datatype Runners = Runners(
    calls: int := 0,            // calls of the continuation still to come
    early: int := 0,            // in scheduleContinuation, before all its guards are in place
    guarding: int := 0,         // in scheduleContinuation or a task
    failed: int := 0)           // at a failed assertion, or where no agent can be

  function Plus(x: Sum, y: Sum): Sum {
    Sum(Held(x.held.attached + y.held.attached, x.held.refs + y.held.refs, x.held.derefs + y.held.derefs, x.held.promises + y.held.promises),
        Setters(x.setter.setting + y.setter.setting, x.setter.storing + y.setter.storing, x.setter.setFinishing + y.setter.setFinishing,
                x.setter.last + y.setter.last),
        Continuers(x.cont.continuing + y.cont.continuing, x.cont.building + y.cont.building, x.cont.contFinishing + y.cont.contFinishing),
        Runners(x.run.calls + y.run.calls, x.run.early + y.run.early, x.run.guarding + y.run.guarding, x.run.failed + y.run.failed))
  }

  function Zero(): Sum { Sum() }

  function Bit(b: bool): int { if b then 1 else 0 }

  // An agent that is inside setResult still holds its promise, unless it is dropping it.
  function Caller(ret: Return): int { Bit(ret != ToExecutor) }

  predicate Early(stage: Stage) { stage.Attach? || stage.Ref? || stage.Attach1? || stage.Ref1? || stage.Attach2? || stage.Ref2? }

  // Holds the state, and some promises.
  function Holder(promises: int): Sum { Sum(held := Held(attached := 1, promises := promises)) }

  function Dropper(last: bool): Sum { Sum(held := Held(attached := 1), setter := Setters(last := Bit(last))) }

  // An agent in setResult returns to its promise, or has dropped the last one.
  function Setter(ret: Return, storing: int, setFinishing: int): Sum {
    Sum(Held(attached := Caller(ret), promises := Bit(ret == ToPromise)),
        Setters(setting := 1, storing := storing, setFinishing := setFinishing, last := Bit(ret == ToDrop)),
        run := Runners(failed := Bit(ret == ToFuture || ret == ToExecutor)))
  }

  function Continuer(building: int, contFinishing: int): Sum {
    Sum(held := Held(attached := 1), cont := Continuers(continuing := 1, building := building, contFinishing := contFinishing))
  }

  function Chooser(ret: Return): Sum {
    Sum(Held(attached := Caller(ret), derefs := 1, promises := Bit(ret == ToPromise)),
        run := Runners(calls := 1, early := 1, guarding := 1, failed := Bit(ret == ToExecutor)))
  }

  // In scheduleContinuation, or a task, which only makes the call and lets go.
  function Guarder(stage: Stage, ret: Return): Sum {
    var attached, promises, failed := Caller(ret), Bit(ret == ToPromise), Bit(ret == ToExecutor);
    match stage
    case Attach => Sum(Held(attached, 0, 1, promises), run := Runners(1, 1, 1, failed))
    case Ref => Sum(Held(attached + 1, 0, 1, promises), run := Runners(1, 1, 1, failed))
    case Call => Sum(Held(attached + 1, 1, 1, promises), run := Runners(1, 0, 1, 0))
    case Deref => Sum(Held(attached + 1, 1, 1, promises), run := Runners(0, 0, 1, 0))
    case Detach => Sum(Held(attached + 1, 0, 0, promises), run := Runners(0, 0, 1, 0))
    case Attach1 => Sum(Held(attached, 0, 2, promises), run := Runners(1, 1, 1, failed))
    case Ref1 => Sum(Held(attached + 1, 0, 2, promises), run := Runners(1, 1, 1, failed))
    case Attach2 => Sum(Held(attached + 1, 1, 2, promises), run := Runners(1, 1, 1, failed))
    case Ref2 => Sum(Held(attached + 2, 1, 2, promises), run := Runners(1, 1, 1, failed))
    case Schedule => Sum(Held(attached + 2, 2, 2, promises), run := Runners(1, 0, 1, failed))
    case FailedDeref => Sum(Held(attached + 2, 2, 2, promises), run := Runners(1, 0, 1, failed))
    case FailedDetach => Sum(Held(attached + 2, 1, 1, promises), run := Runners(1, 0, 1, failed))
  }

  // Where setResult and scheduleContinuation return to.
  function Returner(ret: Return): Sum { Sum(held := Held(attached := Caller(ret), promises := Bit(ret == ToPromise))) }

  function Part<V>(pc: PC<V>): Sum {
    match pc
    case Promise => Holder(1)
    case Copying => Holder(2)
    case DropPromise => Holder(1)
    case DropCheck(last) => Dropper(last)
    case SetStore(_, ret) => Setter(ret, 1, 0)
    case SetLoad(ret) => Setter(ret, 0, 0)
    case SetStart(ret) => Setter(ret, 0, 0)
    case SetFinish(ret) => Setter(ret, 0, 1)
    case Future => Holder(0)
    case ContBuild => Continuer(1, 0)
    case ContLoad => Continuer(0, 0)
    case ContStart => Continuer(0, 0)
    case ContFinish => Continuer(0, 1)
    case Choose(ret) => Chooser(ret)
    case Guard(stage, ret) => Guarder(stage, ret)
    case Release => Holder(0)
    case Gone => Sum()
    case Failed => Sum(run := Runners(failed := 1))
  }

  function Total<V>(pcs: seq<PC<V>>): Sum {
    if pcs == [] then Zero() else Plus(Total(pcs[..|pcs| - 1]), Part(pcs[|pcs| - 1]))
  }

  // What holds of any number of agents.
  predicate Fine(x: Sum) {
    && x.held.attached >= 0 && x.held.refs >= 0 && x.held.promises >= 0 && x.run.calls >= 0 && x.setter.last >= 0 && x.run.failed >= 0
    && 0 <= x.setter.storing <= x.setter.setting && 0 <= x.setter.setFinishing <= x.setter.setting
    && x.setter.setting <= x.held.promises + x.setter.last + x.run.failed
    && 0 <= x.cont.building <= x.cont.continuing && 0 <= x.cont.contFinishing <= x.cont.continuing
    && 0 <= x.run.early <= x.run.guarding && x.run.calls <= x.held.derefs && x.held.refs <= x.held.derefs
    && (x.run.early == 0 ==> x.held.refs == x.held.derefs)
    && (x.run.guarding == 0 ==> x.held.derefs == 0)
  }

  lemma {:induction false} TotalIsFine<V>(pcs: seq<PC<V>>)
    ensures Fine(Total(pcs))
  {
    if pcs != [] {
      var last := pcs[|pcs| - 1];
      TotalIsFine(pcs[..|pcs| - 1]);
      PartIsFine(last);
      PlusIsFine(Total(pcs[..|pcs| - 1]), Part(last));
    }
  }

  lemma PartIsFine<V>(pc: PC<V>)
    ensures Fine(Part(pc))
  {
  }

  lemma PlusIsFine(x: Sum, y: Sum)
    requires Fine(x) && Fine(y)
    ensures Fine(Plus(x, y))
  {
  }

  lemma SwapParts(total: Sum, init: Sum, less: Sum, rest: Sum, x: Sum, y: Sum)
    requires total == Plus(init, y) && init == Plus(less, x) && rest == Plus(less, y)
    ensures total == Plus(rest, x)
  {
  }

  // The contribution of all the agents but one.
  ghost function Rest<V>(pcs: seq<PC<V>>, t: nat): Sum
    requires t < |pcs|
  {
    Total(pcs[..t] + pcs[t + 1..])
  }

  lemma {:induction false} TotalWithout<V>(pcs: seq<PC<V>>, t: nat)
    requires t < |pcs|
    ensures Total(pcs) == Plus(Rest(pcs, t), Part(pcs[t]))
    decreases |pcs|
  {
    var last := |pcs| - 1;
    var rest, init := pcs[..t] + pcs[t + 1..], pcs[..last];
    if t == last {
      assert rest == init;
    } else {
      var less := init[..t] + init[t + 1..];
      TotalWithout(init, t);
      assert rest == less + [pcs[last]];
      TotalMore(less, pcs[last]);
      TotalMore(init, pcs[last]);
      assert pcs == init + [pcs[last]];
      SwapParts(Total(pcs), Total(init), Total(less), Total(rest), Part(pcs[t]), Part(pcs[last]));
    }
  }

  lemma {:induction false} TotalMoved<V>(pcs: seq<PC<V>>, t: nat, pc: PC<V>)
    requires t < |pcs|
    ensures Total(pcs[t := pc]) == Plus(Rest(pcs, t), Part(pc))
  {
    TotalWithout(pcs[t := pc], t);
    assert pcs[t := pc][..t] + pcs[t := pc][t + 1..] == pcs[..t] + pcs[t + 1..];
  }

  lemma {:induction false} TotalMore<V>(pcs: seq<PC<V>>, pc: PC<V>)
    ensures Total(pcs + [pc]) == Plus(Total(pcs), Part(pc))
  {
    assert (pcs + [pc])[..|pcs|] == pcs;
  }

  // ---------------------------------------------------------------------------------------
  // The invariant
  // ---------------------------------------------------------------------------------------

  ghost predicate Inv<V>(s: State<V>) { InvWith(s, Total(s.pcs)) }

  ghost predicate InvWith<V>(s: State<V>, x: Sum) {
    && x.run.failed == 0
    && Counters(s, x) && Setting(s, x) && Continuing(s, x) && Finishing(s, x)
  }

  ghost predicate Counters<V>(s: State<V>, x: Sum) {
    && s.attached == x.held.attached < 256
    && s.continuationRef == x.held.refs
    && s.promiseRef == x.held.promises
    && s.deletions == Bit(x.held.attached == 0)
  }

  // One setResult, by a promise or by the agent that has dropped the last one.
  ghost predicate Setting<V>(s: State<V>, x: Sum) {
    && x.setter.setting == Bit(s.claimed && !s.word.HasResult())
    && (s.word.HasResult() ==> s.claimed)
    && (s.word.HasResult() || x.setter.setting > x.setter.storing ==> s.result.Some? && s.value == s.result)
    && (x.setter.setFinishing > 0 ==> s.word == OnlyContinuation)
    && x.setter.last <= 1 && (x.held.promises > 0 ==> x.setter.last == 0)
    && (x.held.promises == 0 ==> x.setter.last == 1 || s.word.HasResult())
  }

  ghost predicate Continuing<V>(s: State<V>, x: Sum) {
    && x.cont.continuing == Bit(s.contClaimed && !s.word.HasContinuation())
    && (s.word.HasContinuation() ==> s.contClaimed)
    && (x.cont.contFinishing > 0 ==> s.word == OnlyResult)
    && s.continuation == (if !s.contClaimed || x.cont.building > 0 then Absent else if s.word.Finished? && x.held.derefs == 0 then Destroyed else Alive)
    && s.destructions == Bit(s.continuation == Destroyed)
  }

  // The continuation is called by exactly one agent, or has been.
  ghost predicate Finishing<V>(s: State<V>, x: Sum) {
    && (x.run.guarding > 0 ==> s.word.Finished?)
    && (x.run.early > 0 ==> x.run.guarding == 1)
    && x.run.calls + |s.calls| == Bit(s.word.Finished?)
    && (s.calls != [] ==> s.result == Some(s.calls[0]))
    && x.held.derefs <= 2
  }

  // An agent that contributed p and now contributes p' keeps the invariant, whatever the others
  // contribute.
  ghost predicate Leads<V>(s: State<V>, p: Sum, s': State<V>, p': Sum, r: Sum) {
    Fine(r) && InvWith(s, Plus(r, p)) && r.held.attached + p'.held.attached < 256 ==> InvWith(s', Plus(r, p'))
  }

  // The same with an agent that contributes q started.
  ghost predicate Starts<V>(s: State<V>, p: Sum, s': State<V>, p': Sum, q: Sum, r: Sum) {
    Fine(r) && InvWith(s, Plus(r, p)) && r.held.attached + p'.held.attached + q.held.attached < 256 ==> InvWith(s', Plus(Plus(r, p'), q))
  }

  lemma {:induction false} ClaimLeads<V>(s: State<V>, v: V, r: Sum)
    requires !s.claimed
    ensures Leads(s, Holder(1), s.(claimed := true, sent := Some(v)), Setter(ToPromise, 1, 0), r)
  {
  }

  lemma {:induction false} ContClaimLeads<V>(s: State<V>, r: Sum)
    requires !s.contClaimed
    ensures Leads(s, Holder(0), s.(contClaimed := true), Continuer(1, 0), r)
  {
  }

  lemma {:induction false} CopyLeads<V>(s: State<V>, r: Sum)
    ensures Leads(s, Holder(1), s.(promiseRef := s.promiseRef + 1), Holder(2), r)
  {
  }

  lemma {:induction false} CopiedStarts<V>(s: State<V>, r: Sum)
    ensures Starts(s, Holder(2), AttachOne(s), Holder(1), Holder(1), r)
  {
  }

  lemma {:induction false} DropLeads<V>(s: State<V>, r: Sum)
    ensures Leads(s, Holder(1), s.(promiseRef := s.promiseRef - 1), Dropper(s.promiseRef == 1), r)
  {
  }

  // The last promise breaks if there is no result.
  lemma {:induction false} BreakLeads<V>(s: State<V>, r: Sum)
    requires !s.word.HasResult()
    ensures Leads(s, Dropper(true), s.(claimed := true, sent := Some(s.broken)), Setter(ToDrop, 1, 0), r)
  {
  }

  lemma {:induction false} DroppedLeads<V>(s: State<V>, last: bool, r: Sum)
    requires s.word.HasResult() || !last
    ensures Leads(s, Dropper(last), s, Holder(0), r)
  {
  }

  lemma {:induction false} ReleaseLeads<V>(s: State<V>, r: Sum)
    ensures Leads(s, Holder(0), DetachOne(s), Sum(), r)
  {
  }

  // The value is there before the state says so.
  lemma {:induction false} StoreLeads<V>(s: State<V>, v: V, ret: Return, r: Sum)
    ensures Leads(s, Setter(ret, 1, 0), s.(value := Some(v), result := Some(v)), Setter(ret, 0, 0), r)
  {
  }

  lemma {:induction false} ResultFirstLeads<V>(s: State<V>, ret: Return, r: Sum)
    requires s.word.Start?
    ensures Leads(s, Setter(ret, 0, 0), s.(word := OnlyResult), Returner(ret), r)
  {
  }

  // The continuation has come in between.
  lemma {:induction false} ResultSecondLeads<V>(s: State<V>, ret: Return, r: Sum)
    requires !s.word.Start?
    ensures Leads(s, Setter(ret, 0, 0), s, Setter(ret, 0, 1), r)
  {
  }

  lemma {:induction false} ResultOnceLeads<V>(s: State<V>, ret: Return, r: Sum)
    requires s.word.HasResult()
    ensures Leads(s, Setter(ret, 0, 0), s, Sum(run := Runners(failed := 1)), r)
  {
  }

  lemma {:induction false} SetFinishLeads<V>(s: State<V>, ret: Return, r: Sum)
    requires s.word.OnlyContinuation?
    ensures Leads(s, Setter(ret, 0, 1), s.(word := Finished), Chooser(ret), r)
  {
  }

  // The second CAS cannot fail.
  lemma {:induction false} SetFinishSucceeds<V>(s: State<V>, ret: Return, r: Sum)
    requires !s.word.OnlyContinuation?
    ensures Leads(s, Setter(ret, 0, 1), s, Sum(run := Runners(failed := 1)), r)
  {
  }

  lemma {:induction false} BuildLeads<V>(s: State<V>, r: Sum)
    ensures Leads(s, Continuer(1, 0), s.(continuation := Alive), Continuer(0, 0), r)
  {
  }

  lemma {:induction false} ContinuationFirstLeads<V>(s: State<V>, r: Sum)
    requires s.word.Start?
    ensures Leads(s, Continuer(0, 0), s.(word := OnlyContinuation), Holder(0), r)
  {
  }

  lemma {:induction false} ContinuationSecondLeads<V>(s: State<V>, r: Sum)
    requires !s.word.Start?
    ensures Leads(s, Continuer(0, 0), s, Continuer(0, 1), r)
  {
  }

  lemma {:induction false} ContinuationOnceLeads<V>(s: State<V>, r: Sum)
    requires s.word.HasContinuation()
    ensures Leads(s, Continuer(0, 0), s, Sum(run := Runners(failed := 1)), r)
  {
  }

  lemma {:induction false} ContFinishLeads<V>(s: State<V>, r: Sum)
    requires s.word.OnlyResult?
    ensures Leads(s, Continuer(0, 1), s.(word := Finished), Chooser(ToFuture), r)
  {
  }

  // Nor can this one.
  lemma {:induction false} ContFinishSucceeds<V>(s: State<V>, r: Sum)
    requires !s.word.OnlyResult?
    ensures Leads(s, Continuer(0, 1), s, Sum(run := Runners(failed := 1)), r)
  {
  }

  lemma {:induction false} InlineLeads<V>(s: State<V>, ret: Return, trigger: Option<Trigger>, r: Sum)
    ensures Leads(s, Chooser(ret), s.(trigger := trigger), Guarder(Attach, ret), r)
  {
  }

  lemma {:induction false} ScheduledLeads<V>(s: State<V>, ret: Return, trigger: Option<Trigger>, r: Sum)
    ensures Leads(s, Chooser(ret), s.(trigger := trigger), Guarder(Attach1, ret), r)
  {
  }

  lemma {:induction false} AttachLeads<V>(s: State<V>, ret: Return, stage: Stage, next: Stage, r: Sum)
    requires (stage == Attach && next == Ref) || (stage == Attach1 && next == Ref1) || (stage == Attach2 && next == Ref2)
    ensures Leads(s, Guarder(stage, ret), AttachOne(s), Guarder(next, ret), r)
  {
  }

  lemma {:induction false} RefLeads<V>(s: State<V>, ret: Return, stage: Stage, next: Stage, r: Sum)
    requires (stage == Ref && next == Call) || (stage == Ref1 && next == Attach2) || (stage == Ref2 && next == Schedule)
    ensures Leads(s, Guarder(stage, ret), RefContinuation(s), Guarder(next, ret), r)
  {
  }

  // The one call.
  lemma {:induction false} CallLeads<V>(s: State<V>, ret: Return, r: Sum)
    requires s.value.Some?
    ensures Leads(s, Guarder(Call, ret), s.(calls := s.calls + [s.value.value], made := s.made + [ret]), Guarder(Deref, ret), r)
  {
  }

  // The task makes the call, or else this agent.
  lemma {:induction false} AcceptedStarts<V>(s: State<V>, ret: Return, r: Sum)
    ensures Starts(s, Guarder(Schedule, ret), s.(job := Accepted), Guarder(Deref, ret), Guarder(Call, ToExecutor), r)
  {
  }

  lemma {:induction false} RefusedLeads<V>(s: State<V>, ret: Return, r: Sum)
    ensures Leads(s, Guarder(Schedule, ret), s.(job := Refused), Guarder(FailedDeref, ret), r)
  {
  }

  // The last reference destroys the continuation, after the call.
  lemma {:induction false} DerefLeads<V>(s: State<V>, ret: Return, r: Sum)
    ensures Leads(s, Guarder(Deref, ret), DerefContinuation(s), Guarder(Detach, ret), r)
  {
    if s.continuationRef == 1 {
      LastDerefLeads(s, ret, r);
    } else {
      EarlyDerefLeads(s, ret, r);
    }
  }

  lemma LastDerefLeads<V>(s: State<V>, ret: Return, r: Sum)
    requires s.continuationRef == 1
    ensures Leads(s, Guarder(Deref, ret), DerefContinuation(s), Guarder(Detach, ret), r)
  {
  }

  lemma EarlyDerefLeads<V>(s: State<V>, ret: Return, r: Sum)
    requires s.continuationRef != 1
    ensures Leads(s, Guarder(Deref, ret), DerefContinuation(s), Guarder(Detach, ret), r)
  {
  }

  lemma {:induction false} FailedDerefLeads<V>(s: State<V>, ret: Return, r: Sum)
    ensures Leads(s, Guarder(FailedDeref, ret), DerefContinuation(s), Guarder(FailedDetach, ret), r)
  {
  }

  // The last reference deletes the state.
  lemma {:induction false} DetachLeads<V>(s: State<V>, ret: Return, r: Sum)
    ensures Leads(s, Guarder(Detach, ret), DetachOne(s), Returner(ret), r)
  {
  }

  lemma {:induction false} FailedDetachLeads<V>(s: State<V>, ret: Return, r: Sum)
    ensures Leads(s, Guarder(FailedDetach, ret), DetachOne(s), Guarder(Call, ret), r)
  {
  }

  // What a step does to the state, and to what the agent contributes.
  ghost predicate Does<V>(s: State<V>, pc: PC<V>, m: Move<V>, p: Sum, s': State<V>, p': Sum)
    requires Ready(s, pc, m)
  {
    var a := ActOf(s, pc, m);
    Part(pc) == p && a.s == s' && Part(a.pc) == p' && a.started.None?
  }

  ghost predicate Keeps<V>(s: State<V>, pc: PC<V>, m: Move<V>, r: Sum)
    requires Ready(s, pc, m)
  {
    var a := ActOf(s, pc, m);
    if a.started.None? then Leads(s, Part(pc), a.s, Part(a.pc), r)
    else Starts(s, Part(pc), a.s, Part(a.pc), Part(a.started.value), r)
  }

  lemma {:induction false} CallDoes<V>(s: State<V>, pc: PC<V>, m: Move<V>)
    requires Ready(s, pc, m) && !m.Advance?
    ensures
      match m
      case CallSetResult(v) => Does(s, pc, m, Holder(1), s.(claimed := true, sent := Some(v)), Setter(ToPromise, 1, 0))
      case CopyPromise => Does(s, pc, m, Holder(1), s.(promiseRef := s.promiseRef + 1), Holder(2))
      case CallDropPromise => Does(s, pc, m, Holder(1), s, Holder(1))
      case CallSetContinuation => Does(s, pc, m, Holder(0), s.(contClaimed := true), Continuer(1, 0))
      case DropFuture => Does(s, pc, m, Holder(0), s, Holder(0))
  {
  }

  lemma {:induction false} CallKeeps<V>(s: State<V>, pc: PC<V>, m: Move<V>, r: Sum)
    requires Ready(s, pc, m) && !m.Advance?
    ensures Keeps(s, pc, m, r)
  {
    CallDoes(s, pc, m);
    match m
    case CallSetResult(v) => ClaimLeads(s, v, r);
    case CopyPromise => CopyLeads(s, r);
    case CallDropPromise =>
    case CallSetContinuation => ContClaimLeads(s, r);
    case DropFuture =>
  }

  lemma {:induction false} PromiseDoes<V>(s: State<V>, pc: PC<V>, m: Move<V>)
    requires Ready(s, pc, m) && m.Advance? && (pc.DropPromise? || pc.DropCheck? || pc.Release?)
    ensures
      match pc
      case DropPromise => Does(s, pc, m, Holder(1), s.(promiseRef := s.promiseRef - 1), Dropper(s.promiseRef == 1))
      case DropCheck(last) =>
        if !s.word.HasResult() && last then Does(s, pc, m, Dropper(last), s.(claimed := true, sent := Some(s.broken)), Setter(ToDrop, 1, 0))
        else Does(s, pc, m, Dropper(last), s, Holder(0))
      case Release => Does(s, pc, m, Holder(0), DetachOne(s), Sum())
  {
  }

  lemma {:induction false} PromiseKeeps<V>(s: State<V>, pc: PC<V>, m: Move<V>, r: Sum)
    requires Ready(s, pc, m) && m.Advance? && (pc.DropPromise? || pc.DropCheck? || pc.Release?)
    ensures Keeps(s, pc, m, r)
  {
    PromiseDoes(s, pc, m);
    match pc
    case DropPromise => DropLeads(s, r);
    case DropCheck(last) => if !s.word.HasResult() && last { BreakLeads(s, r); } else { DroppedLeads(s, last, r); }
    case Release => ReleaseLeads(s, r);
  }

  lemma {:induction false} SetResultDoes<V>(s: State<V>, pc: PC<V>, m: Move<V>)
    requires Ready(s, pc, m) && m.Advance? && (pc.SetStore? || pc.SetLoad? || pc.SetStart? || pc.SetFinish?)
    ensures
      match pc
      case SetStore(v, ret) => Does(s, pc, m, Setter(ret, 1, 0), s.(value := Some(v), result := Some(v)), Setter(ret, 0, 0))
      case SetLoad(ret) =>
        Does(s, pc, m, Setter(ret, 0, 0), s,
             if s.word.Start? then Setter(ret, 0, 0) else if s.word.OnlyContinuation? then Setter(ret, 0, 1) else Sum(run := Runners(failed := 1)))
      case SetStart(ret) =>
        if s.word.Start? then Does(s, pc, m, Setter(ret, 0, 0), s.(word := OnlyResult), Returner(ret))
        else Does(s, pc, m, Setter(ret, 0, 0), s, Setter(ret, 0, 1))
      case SetFinish(ret) =>
        if s.word.OnlyContinuation? then Does(s, pc, m, Setter(ret, 0, 1), s.(word := Finished), Chooser(ret))
        else Does(s, pc, m, Setter(ret, 0, 1), s, Sum(run := Runners(failed := 1)))
  {
  }

  lemma {:induction false} SetResultKeeps<V>(s: State<V>, pc: PC<V>, m: Move<V>, r: Sum)
    requires Ready(s, pc, m) && m.Advance? && (pc.SetStore? || pc.SetLoad? || pc.SetStart? || pc.SetFinish?)
    ensures Keeps(s, pc, m, r)
  {
    SetResultDoes(s, pc, m);
    match pc
    case SetStore(v, ret) => StoreLeads(s, v, ret, r);
    case SetLoad(ret) =>
      if s.word.OnlyContinuation? { ResultSecondLeads(s, ret, r); } else if s.word.HasResult() { ResultOnceLeads(s, ret, r); }
    case SetStart(ret) => if s.word.Start? { ResultFirstLeads(s, ret, r); } else { ResultSecondLeads(s, ret, r); }
    case SetFinish(ret) => if s.word.OnlyContinuation? { SetFinishLeads(s, ret, r); } else { SetFinishSucceeds(s, ret, r); }
  }

  lemma {:induction false} SetContinuationDoes<V>(s: State<V>, pc: PC<V>, m: Move<V>)
    requires Ready(s, pc, m) && m.Advance? && (pc.ContBuild? || pc.ContLoad? || pc.ContStart? || pc.ContFinish?)
    ensures
      match pc
      case ContBuild => Does(s, pc, m, Continuer(1, 0), s.(continuation := Alive), Continuer(0, 0))
      case ContLoad =>
        Does(s, pc, m, Continuer(0, 0), s,
             if s.word.Start? then Continuer(0, 0) else if s.word.OnlyResult? then Continuer(0, 1) else Sum(run := Runners(failed := 1)))
      case ContStart =>
        if s.word.Start? then Does(s, pc, m, Continuer(0, 0), s.(word := OnlyContinuation), Holder(0))
        else Does(s, pc, m, Continuer(0, 0), s, Continuer(0, 1))
      case ContFinish =>
        if s.word.OnlyResult? then Does(s, pc, m, Continuer(0, 1), s.(word := Finished), Chooser(ToFuture))
        else Does(s, pc, m, Continuer(0, 1), s, Sum(run := Runners(failed := 1)))
  {
  }

  lemma {:induction false} SetContinuationKeeps<V>(s: State<V>, pc: PC<V>, m: Move<V>, r: Sum)
    requires Ready(s, pc, m) && m.Advance? && (pc.ContBuild? || pc.ContLoad? || pc.ContStart? || pc.ContFinish?)
    ensures Keeps(s, pc, m, r)
  {
    SetContinuationDoes(s, pc, m);
    match pc
    case ContBuild => BuildLeads(s, r);
    case ContLoad =>
      if s.word.OnlyResult? { ContinuationSecondLeads(s, r); } else if s.word.HasContinuation() { ContinuationOnceLeads(s, r); }
    case ContStart => if s.word.Start? { ContinuationFirstLeads(s, r); } else { ContinuationSecondLeads(s, r); }
    case ContFinish => if s.word.OnlyResult? { ContFinishLeads(s, r); } else { ContFinishSucceeds(s, r); }
  }

  lemma {:induction false} GuardDoes<V>(s: State<V>, pc: PC<V>, m: Move<V>)
    requires Ready(s, pc, m) && m.Advance? && pc.Guard? && Early(pc.stage)
    ensures
      var ret := pc.ret;
      match pc.stage
      case Attach => Does(s, pc, m, Guarder(Attach, ret), AttachOne(s), Guarder(Ref, ret))
      case Attach1 => Does(s, pc, m, Guarder(Attach1, ret), AttachOne(s), Guarder(Ref1, ret))
      case Attach2 => Does(s, pc, m, Guarder(Attach2, ret), AttachOne(s), Guarder(Ref2, ret))
      case Ref => Does(s, pc, m, Guarder(Ref, ret), RefContinuation(s), Guarder(Call, ret))
      case Ref1 => Does(s, pc, m, Guarder(Ref1, ret), RefContinuation(s), Guarder(Attach2, ret))
      case Ref2 => Does(s, pc, m, Guarder(Ref2, ret), RefContinuation(s), Guarder(Schedule, ret))
  {
  }

  lemma {:induction false} GuardKeeps<V>(s: State<V>, pc: PC<V>, m: Move<V>, r: Sum)
    requires Ready(s, pc, m) && m.Advance? && pc.Guard? && Early(pc.stage)
    ensures Keeps(s, pc, m, r)
  {
    GuardDoes(s, pc, m);
    match pc.stage
    case Attach => AttachLeads(s, pc.ret, Attach, Ref, r);
    case Attach1 => AttachLeads(s, pc.ret, Attach1, Ref1, r);
    case Attach2 => AttachLeads(s, pc.ret, Attach2, Ref2, r);
    case Ref => RefLeads(s, pc.ret, Ref, Call, r);
    case Ref1 => RefLeads(s, pc.ret, Ref1, Attach2, r);
    case Ref2 => RefLeads(s, pc.ret, Ref2, Schedule, r);
  }

  lemma {:induction false} CopyingKeeps<V>(s: State<V>, pc: PC<V>, m: Move<V>, r: Sum)
    requires Ready(s, pc, m) && pc.Copying?
    ensures Keeps(s, pc, m, r)
  {
    CopiedStarts(s, r);
  }

  lemma {:induction false} AcceptedKeeps<V>(s: State<V>, pc: PC<V>, m: Move<V>, r: Sum)
    requires Ready(s, pc, m) && pc.Guard? && pc.stage.Schedule? && m.accepted
    ensures Keeps(s, pc, m, r)
  {
    AcceptedStarts(s, pc.ret, r);
  }

  lemma {:induction false} DetachDoes<V>(s: State<V>, pc: PC<V>, m: Move<V>)
    requires Ready(s, pc, m) && m.Advance? && pc.Guard? && pc.stage.Detach?
    ensures Does(s, pc, m, Guarder(Detach, pc.ret), DetachOne(s), Returner(pc.ret))
  {
  }

  lemma {:induction false} FinishDoes<V>(s: State<V>, pc: PC<V>, m: Move<V>)
    requires Ready(s, pc, m) && m.Advance? && pc.Guard? && !Early(pc.stage) && !pc.stage.Detach? && !(pc.stage.Schedule? && m.accepted)
    ensures
      var ret := pc.ret;
      match pc.stage
      case Call => s.value.Some? && Does(s, pc, m, Guarder(Call, ret), s.(calls := s.calls + [s.value.value], made := s.made + [ret]), Guarder(Deref, ret))
      case Schedule => Does(s, pc, m, Guarder(Schedule, ret), s.(job := Refused), Guarder(FailedDeref, ret))
      case Deref => Does(s, pc, m, Guarder(Deref, ret), DerefContinuation(s), Guarder(Detach, ret))
      case FailedDeref => Does(s, pc, m, Guarder(FailedDeref, ret), DerefContinuation(s), Guarder(FailedDetach, ret))
      case FailedDetach => Does(s, pc, m, Guarder(FailedDetach, ret), DetachOne(s), Guarder(Call, ret))
  {
  }

  lemma {:induction false} FinishKeeps<V>(s: State<V>, pc: PC<V>, m: Move<V>, r: Sum)
    requires Ready(s, pc, m) && m.Advance? && pc.Guard? && !Early(pc.stage) && !(pc.stage.Schedule? && m.accepted)
    ensures Keeps(s, pc, m, r)
  {
    if pc.stage.Detach? {
      DetachDoes(s, pc, m);
    } else {
      FinishDoes(s, pc, m);
    }
    match pc.stage
    case Call => CallLeads(s, pc.ret, r);
    case Schedule => RefusedLeads(s, pc.ret, r);
    case Deref => DerefLeads(s, pc.ret, r);
    case FailedDeref => FailedDerefLeads(s, pc.ret, r);
    case Detach => DetachLeads(s, pc.ret, r);
    case FailedDetach => FailedDetachLeads(s, pc.ret, r);
  }

  lemma {:induction false} ChooseDoes<V>(s: State<V>, pc: PC<V>, m: Move<V>)
    requires Ready(s, pc, m) && m.Advance? && pc.Choose?
    ensures var s' := s.(trigger := Some(Trigger(pc.ret, m.inExecutor)));
      Does(s, pc, m, Chooser(pc.ret), s', Guarder(Attach, pc.ret)) || Does(s, pc, m, Chooser(pc.ret), s', Guarder(Attach1, pc.ret))
  {
  }

  lemma {:induction false} ChooseKeeps<V>(s: State<V>, pc: PC<V>, m: Move<V>, r: Sum)
    requires Ready(s, pc, m) && m.Advance? && pc.Choose?
    ensures Keeps(s, pc, m, r)
  {
    ChooseDoes(s, pc, m);
    InlineLeads(s, pc.ret, Some(Trigger(pc.ret, m.inExecutor)), r);
    ScheduledLeads(s, pc.ret, Some(Trigger(pc.ret, m.inExecutor)), r);
  }

  // Whatever an agent does.
  lemma {:induction false} ActKeeps<V>(s: State<V>, pc: PC<V>, m: Move<V>, r: Sum)
    requires Ready(s, pc, m)
    ensures Keeps(s, pc, m, r)
  {
    if !m.Advance? {
      CallKeeps(s, pc, m, r);
    } else if pc.Guard? {
      if Early(pc.stage) {
        GuardKeeps(s, pc, m, r);
      } else if pc.stage.Schedule? && m.accepted {
        AcceptedKeeps(s, pc, m, r);
      } else {
        FinishKeeps(s, pc, m, r);
      }
    } else if pc.Copying? {
      CopyingKeeps(s, pc, m, r);
    } else if pc.SetStore? || pc.SetLoad? || pc.SetStart? || pc.SetFinish? {
      SetResultKeeps(s, pc, m, r);
    } else if pc.ContBuild? || pc.ContLoad? || pc.ContStart? || pc.ContFinish? {
      SetContinuationKeeps(s, pc, m, r);
    } else if pc.Choose? {
      ChooseKeeps(s, pc, m, r);
    } else {
      PromiseKeeps(s, pc, m, r);
    }
  }

  // ---------------------------------------------------------------------------------------
  // Every run
  // ---------------------------------------------------------------------------------------

  // The references to the state that are held.
  ghost function References<V>(s: State<V>): int { Total(s.pcs).held.attached }

  // The counters have 8 bits.
  ghost predicate FewReferences<V>(run: seq<State<V>>) { forall i :: 0 <= i < |run| ==> References(run[i]) < 256 }

  lemma {:induction false} RestIsFine<V>(s: State<V>, t: nat)
    requires Inv(s) && t < |s.pcs|
    ensures Fine(Rest(s.pcs, t)) && InvWith(s, Plus(Rest(s.pcs, t), Part(s.pcs[t])))
  {
    TotalWithout(s.pcs, t);
    TotalIsFine(s.pcs[..t] + s.pcs[t + 1..]);
  }

  ghost function Added<V>(r: Sum, a: Act<V>): Sum {
    var x := Plus(r, Part(a.pc));
    if a.started.None? then x else Plus(x, Part(a.started.value))
  }

  lemma {:induction false} MovedTotal<V>(pcs: seq<PC<V>>, t: nat, a: Act<V>)
    requires t < |pcs|
    ensures Total(Moved(pcs, t, a)) == Added(Rest(pcs, t), a)
  {
    TotalMoved(pcs, t, a.pc);
    match a.started
    case None => assert Moved(pcs, t, a) == pcs[t := a.pc];
    case Some(pc) => TotalMore(pcs[t := a.pc], pc);
  }

  // The invariant speaks of the agents through their counts alone.
  lemma InvOfCounts<V>(s: State<V>, pcs: seq<PC<V>>, x: Sum)
    requires InvWith(s, x) && Total(pcs) == x
    ensures Inv(s.(pcs := pcs))
  {
  }

  lemma {:induction false} StepKeepsInv<V>(s: State<V>, t: nat, m: Move<V>)
    requires Inv(s) && Enabled(s, t, m) && References(Step(s, t, m)) < 256
    ensures Inv(Step(s, t, m))
  {
    var r, a := Rest(s.pcs, t), ActOf(s, s.pcs[t], m);
    RestIsFine(s, t);
    MovedTotal(s.pcs, t, a);
    ActKeeps(s, s.pcs[t], m, r);
    InvOfCounts(a.s, Moved(s.pcs, t, a), Added(r, a));
  }

  lemma PlusZero(x: Sum)
    ensures Plus(Zero(), x) == x
  {
  }

  lemma {:induction false} TotalOfOne<V>(pcs: seq<PC<V>>)
    requires |pcs| == 1
    ensures Total(pcs) == Part(pcs[0])
  {
    PlusZero(Part(pcs[0]));
  }

  lemma {:induction false} TotalOfTwo<V>(pcs: seq<PC<V>>)
    requires |pcs| == 2
    ensures Total(pcs) == Plus(Part(pcs[0]), Part(pcs[1]))
  {
    TotalOfOne(pcs[..1]);
  }

  lemma FirstParts<V>(p: PC<V>, f: PC<V>)
    requires p.Promise? && f.Future?
    ensures Part(p) == Sum(held := Held(attached := 1, promises := 1)) && Part(f) == Sum(held := Held(attached := 1))
  {
  }

  lemma PlusOfFirst(x: Sum)
    requires x == Sum(held := Held(attached := 2, promises := 1))
    ensures Plus(Sum(held := Held(attached := 1, promises := 1)), Sum(held := Held(attached := 1))) == x
  {
  }

  lemma {:induction false} FirstSum<V>(p: PC<V>, f: PC<V>, x: Sum)
    requires p.Promise? && f.Future? && x == Plus(Part(p), Part(f))
    ensures x == Sum(held := Held(attached := 2, promises := 1))
  {
    FirstParts(p, f);
    PlusOfFirst(Sum(held := Held(attached := 2, promises := 1)));
  }

  lemma InitInvWith<V>(s: State<V>, x: Sum)
    requires Init(s) && x == Sum(held := Held(attached := 2, promises := 1))
    ensures InvWith(s, x)
  {
  }

  lemma {:induction false} InitInv<V>(s: State<V>)
    requires Init(s)
    ensures Inv(s)
  {
    TotalOfTwo(s.pcs);
    FirstSum(s.pcs[0], s.pcs[1], Total(s.pcs));
    InitInvWith(s, Total(s.pcs));
  }

  lemma {:induction false} RunKeepsInv<V(!new)>(run: seq<State<V>>, i: nat)
    requires IsRun(run) && FewReferences(run) && i < |run|
    ensures Inv(run[i])
  {
    if i == 0 {
      InitInv(run[0]);
    } else {
      RunKeepsInv(run, i - 1);
      assert StepAt(run, i);
      var t, m :| Enabled(run[i - 1], t, m) && run[i] == Step(run[i - 1], t, m);
      StepKeepsInv(run[i - 1], t, m);
    }
  }

  // ---------------------------------------------------------------------------------------
  // Main results
  // ---------------------------------------------------------------------------------------

  // No "State Transfer Error", one call at most, of a living continuation, with the stored value,
  // and nobody uses a state that has been deleted.
  ghost predicate Safe<V>(s: State<V>) {
    && (forall t :: 0 <= t < |s.pcs| ==> AgentSafe(s, s.pcs[t]))
    && |s.calls| <= 1 && (s.calls != [] ==> s.word.Finished? && s.result == Some(s.calls[0]))
    && s.destructions <= 1 && s.deletions <= 1
    && s.attached == References(s)
  }

  ghost predicate AgentSafe<V>(s: State<V>, pc: PC<V>) {
    && !pc.Failed?
    && (!pc.Gone? ==> s.deletions == 0)
    && (pc.Choose? || pc.Guard? ==> s.word.Finished?)
    && (pc.Guard? && pc.stage.Call? ==> s.continuation == Alive && s.calls == [] && s.value.Some? && s.value == s.result)
  }

  // What the contribution of an agent says about it.
  lemma PartTells<V>(pc: PC<V>)
    ensures Part(pc).run.failed == 0 && !pc.Gone? ==> !pc.Failed? && Part(pc).held.attached > 0
    ensures pc.Choose? || pc.Guard? ==> Part(pc).run.guarding == 1
    ensures pc.Guard? && pc.stage.Call? ==> Part(pc).run.calls == Part(pc).held.derefs == 1
  {
  }

  lemma {:induction false} AgentIsSafe<V>(s: State<V>, pc: PC<V>, r: Sum)
    requires Fine(r) && InvWith(s, Plus(r, Part(pc)))
    ensures AgentSafe(s, pc)
  {
    PartTells(pc);
    PartIsFine(pc);
    CountsTell(s, Part(pc), r);
  }

  lemma CountsTell<V>(s: State<V>, p: Sum, r: Sum)
    requires Fine(r) && Fine(p) && InvWith(s, Plus(r, p))
    ensures p.run.failed == 0 && (p.held.attached > 0 ==> s.deletions == 0) && (p.run.guarding > 0 ==> s.word.Finished?)
    ensures p.run.guarding == p.run.calls == p.held.derefs == 1 ==> s.continuation == Alive && s.calls == [] && s.value.Some? && s.value == s.result
  {
  }

  lemma {:induction false} EveryRunIsSafe<V(!new)>(run: seq<State<V>>, i: nat)
    requires IsRun(run) && FewReferences(run) && i < |run|
    ensures Safe(run[i])
  {
    RunKeepsInv(run, i);
    TotalIsFine(run[i].pcs);
    forall t | 0 <= t < |run[i].pcs| ensures AgentSafe(run[i], run[i].pcs[t]) {
      RestIsFine(run[i], t);
      AgentIsSafe(run[i], run[i].pcs[t], Rest(run[i].pcs, t));
    }
  }

  lemma GoneIsNothing<V>(pc: PC<V>)
    requires pc.Gone?
    ensures Part(pc) == Zero()
  {
  }

  lemma {:induction false} TotalOfGone<V>(pcs: seq<PC<V>>)
    requires forall t :: 0 <= t < |pcs| ==> pcs[t].Gone?
    ensures Total(pcs) == Zero()
  {
    if pcs != [] {
      TotalOfGone(pcs[..|pcs| - 1]);
      GoneIsNothing(pcs[|pcs| - 1]);
      PlusZero(Zero());
    }
  }

  lemma NothingIsLeft<V>(s: State<V>, x: Sum)
    requires InvWith(s, x) && x == Zero()
    ensures s.deletions == 1 && s.result.Some?
    ensures |s.calls| == s.destructions == Bit(s.contClaimed) && (s.calls != [] ==> s.result == Some(s.calls[0]))
  {
  }

  // When everyone has gone: the state was deleted once; there was a result; and if there was a
  // continuation, it was called once, with that result, and destroyed once.
  lemma {:induction false} EverythingHappensOnce<V(!new)>(run: seq<State<V>>, i: nat)
    requires IsRun(run) && FewReferences(run) && i < |run|
    requires forall t :: 0 <= t < |run[i].pcs| ==> run[i].pcs[t].Gone?
    ensures run[i].deletions == 1 && run[i].result.Some?
    ensures run[i].contClaimed ==> run[i].calls == [run[i].result.value] && run[i].destructions == 1
    ensures !run[i].contClaimed ==> run[i].calls == [] && run[i].destructions == 0
  {
    RunKeepsInv(run, i);
    TotalOfGone(run[i].pcs);
    NothingIsLeft(run[i], Total(run[i].pcs));
  }

  // ---------------------------------------------------------------------------------------
  // Where the continuation runs
  // ---------------------------------------------------------------------------------------

  // The continuation has to go to the executor.
  predicate MustSchedule<V>(s: State<V>, trigger: Trigger) {
    s.forceSched || (s.hasExecutor && trigger.ret != ToFuture && !trigger.inExecutor)
  }

  predicate Scheduling(stage: Stage) {
    stage.Attach1? || stage.Ref1? || stage.Attach2? || stage.Ref2? || stage.Schedule? || stage.FailedDeref? || stage.FailedDetach?
  }

  ghost predicate AgentPlaced<V>(s: State<V>, pc: PC<V>) {
    match pc
    case SetStore(_, ret) => InSetResult(ret)
    case SetLoad(ret) => InSetResult(ret)
    case SetStart(ret) => InSetResult(ret)
    case SetFinish(ret) => InSetResult(ret)
    case Choose(ret) => s.word.Finished? && s.trigger.None? && ret != ToExecutor
    case Guard(stage, ret) =>
      && s.trigger.Some?
      && (if ret == ToExecutor then s.job == Accepted && OfTask(stage) else s.trigger.value.ret == ret)
      && StagePlaced(s, stage, ret, MustSchedule(s, s.trigger.value))
    case _ => true
  }

  predicate InSetResult(ret: Return) { ret == ToPromise || ret == ToDrop }

  // A task only makes the call and lets go.
  predicate OfTask(stage: Stage) { stage.Call? || stage.Deref? || stage.Detach? }

  ghost predicate StagePlaced<V>(s: State<V>, stage: Stage, ret: Return, scheduled: bool) {
    match stage
    case Attach => !scheduled && s.job.Unasked?
    case Ref => !scheduled && s.job.Unasked?
    case Call => ret != ToExecutor ==> if scheduled then s.job == Refused else s.job.Unasked?
    case Deref => s.made != [] || s.job == Accepted
    case Detach => s.made != [] || s.job == Accepted
    case FailedDeref => scheduled && s.job == Refused
    case FailedDetach => scheduled && s.job == Refused
    case _ => scheduled && s.job.Unasked?
  }

  ghost predicate CallsPlaced<V>(s: State<V>) {
    && |s.made| == |s.calls|
    && (s.trigger.Some? ==> s.word.Finished? && s.trigger.value.ret != ToExecutor)
    && (s.job != Unasked ==> s.trigger.Some? && MustSchedule(s, s.trigger.value))
    && (s.made != [] ==>
          && s.trigger.Some?
          && (MustSchedule(s, s.trigger.value) ==> s.job != Unasked)
          && s.made[0] == if s.job == Accepted then ToExecutor else s.trigger.value.ret)
  }

  ghost predicate Placed<V>(s: State<V>) {
    CallsPlaced(s) && forall t :: 0 <= t < |s.pcs| ==> AgentPlaced(s, s.pcs[t])
  }

  lemma {:induction false} TotalHas<V>(pcs: seq<PC<V>>, u: nat)
    requires u < |pcs|
    ensures Total(pcs).run.calls >= Part(pcs[u]).run.calls && Total(pcs).run.guarding >= Part(pcs[u]).run.guarding
  {
    TotalWithout(pcs, u);
    TotalIsFine(pcs[..u] + pcs[u + 1..]);
  }

  lemma {:induction false} RestHas<V>(pcs: seq<PC<V>>, t: nat, u: nat)
    requires t < |pcs| && u < |pcs| && t != u
    ensures Rest(pcs, t).run.calls >= Part(pcs[u]).run.calls && Rest(pcs, t).run.guarding >= Part(pcs[u]).run.guarding
  {
    var rest := pcs[..t] + pcs[t + 1..];
    TotalHas(rest, if u < t then u else u - 1);
  }

  // There is one agent at a time to choose and to call.
  ghost predicate Apart<V>(s: State<V>, pc: PC<V>, other: PC<V>) {
    && (pc.Choose? ==> !other.Choose? && !other.Guard?)
    && (Calls(pc) ==> !Calls(other))
  }

  // Has the call still to make.
  predicate Calls<V>(pc: PC<V>) { pc.Choose? || (pc.Guard? && !pc.stage.Deref? && !pc.stage.Detach?) }

  lemma CallsIsPart<V>(pc: PC<V>)
    ensures Part(pc).run.calls == Bit(Calls(pc)) && Part(pc).run.guarding == Bit(pc.Choose? || pc.Guard?)
    ensures pc.Choose? ==> Part(pc).run.early == 1
  {
  }

  lemma {:induction false} OthersAreApart<V>(s: State<V>, t: nat, u: nat)
    requires Inv(s) && t < |s.pcs| && u < |s.pcs| && t != u
    ensures Apart(s, s.pcs[t], s.pcs[u])
  {
    RestIsFine(s, t);
    RestHas(s.pcs, t, u);
    CallsIsPart(s.pcs[t]);
    CallsIsPart(s.pcs[u]);
    FewCall(s, Rest(s.pcs, t), Part(s.pcs[t]));
  }

  lemma FewCall<V>(s: State<V>, r: Sum, p: Sum)
    requires Fine(r) && InvWith(s, Plus(r, p))
    ensures r.run.calls + p.run.calls + |s.calls| <= 1
    ensures p.run.early > 0 ==> r.run.guarding + p.run.guarding == 1
  {
  }

  lemma {:induction false} CallerIsFirst<V>(s: State<V>, t: nat)
    requires Inv(s) && t < |s.pcs| && Calls(s.pcs[t])
    ensures s.calls == []
  {
    RestIsFine(s, t);
    CallsIsPart(s.pcs[t]);
    FewCall(s, Rest(s.pcs, t), Part(s.pcs[t]));
  }

  lemma {:induction false} CallPlaces<V>(s: State<V>, pc: PC<V>, m: Move<V>, a: Act<V>)
    requires Ready(s, pc, m) && a == ActOf(s, pc, m) && CallsPlaced(s) && AgentPlaced(s, pc) && (Calls(pc) ==> s.calls == [])
    requires !m.Advance?
    ensures AgentPlaced(a.s, a.pc) && (a.started.Some? ==> AgentPlaced(a.s, a.started.value)) && CallsPlaced(a.s)
  {
  }

  lemma {:induction false} PromisePlaces<V>(s: State<V>, pc: PC<V>, m: Move<V>, a: Act<V>)
    requires Ready(s, pc, m) && a == ActOf(s, pc, m) && CallsPlaced(s) && AgentPlaced(s, pc) && (Calls(pc) ==> s.calls == [])
    requires m.Advance? && (pc.Copying? || pc.DropPromise? || pc.DropCheck? || pc.Release?)
    ensures AgentPlaced(a.s, a.pc) && (a.started.Some? ==> AgentPlaced(a.s, a.started.value)) && CallsPlaced(a.s)
  {
  }

  lemma {:induction false} SetPlaces<V>(s: State<V>, pc: PC<V>, m: Move<V>, a: Act<V>)
    requires Ready(s, pc, m) && a == ActOf(s, pc, m) && CallsPlaced(s) && AgentPlaced(s, pc) && (Calls(pc) ==> s.calls == [])
    requires m.Advance? && (pc.SetStore? || pc.SetLoad? || pc.SetStart? || pc.SetFinish?)
    ensures AgentPlaced(a.s, a.pc) && (a.started.Some? ==> AgentPlaced(a.s, a.started.value)) && CallsPlaced(a.s)
  {
  }

  lemma {:induction false} ContPlaces<V>(s: State<V>, pc: PC<V>, m: Move<V>, a: Act<V>)
    requires Ready(s, pc, m) && a == ActOf(s, pc, m) && CallsPlaced(s) && AgentPlaced(s, pc) && (Calls(pc) ==> s.calls == [])
    requires m.Advance? && (pc.ContBuild? || pc.ContLoad? || pc.ContStart? || pc.ContFinish?)
    ensures AgentPlaced(a.s, a.pc) && (a.started.Some? ==> AgentPlaced(a.s, a.started.value)) && CallsPlaced(a.s)
  {
  }

  // The choice is what it has to be.
  lemma {:induction false} ChoosePlaces<V>(s: State<V>, pc: PC<V>, m: Move<V>, a: Act<V>)
    requires Ready(s, pc, m) && a == ActOf(s, pc, m) && CallsPlaced(s) && AgentPlaced(s, pc) && (Calls(pc) ==> s.calls == [])
    requires m.Advance? && pc.Choose?
    ensures AgentPlaced(a.s, a.pc) && (a.started.Some? ==> AgentPlaced(a.s, a.started.value)) && CallsPlaced(a.s)
  {
  }

  lemma {:induction false} EarlyPlaces<V>(s: State<V>, pc: PC<V>, m: Move<V>, a: Act<V>)
    requires Ready(s, pc, m) && a == ActOf(s, pc, m) && CallsPlaced(s) && AgentPlaced(s, pc) && (Calls(pc) ==> s.calls == [])
    requires m.Advance? && pc.Guard? && Early(pc.stage)
    ensures AgentPlaced(a.s, a.pc) && (a.started.Some? ==> AgentPlaced(a.s, a.started.value)) && CallsPlaced(a.s)
  {
  }

  lemma {:induction false} MadePlaces<V>(s: State<V>, pc: PC<V>, m: Move<V>, a: Act<V>)
    requires Ready(s, pc, m) && a == ActOf(s, pc, m) && CallsPlaced(s) && AgentPlaced(s, pc) && (Calls(pc) ==> s.calls == [])
    requires m.Advance? && pc.Guard? && pc.stage.Call?
    ensures AgentPlaced(a.s, a.pc) && (a.started.Some? ==> AgentPlaced(a.s, a.started.value)) && CallsPlaced(a.s)
  {
  }

  lemma {:induction false} AskedPlaces<V>(s: State<V>, pc: PC<V>, m: Move<V>, a: Act<V>)
    requires Ready(s, pc, m) && a == ActOf(s, pc, m) && CallsPlaced(s) && AgentPlaced(s, pc) && (Calls(pc) ==> s.calls == [])
    requires m.Advance? && pc.Guard? && pc.stage.Schedule?
    ensures AgentPlaced(a.s, a.pc) && (a.started.Some? ==> AgentPlaced(a.s, a.started.value)) && CallsPlaced(a.s)
  {
  }

  lemma {:induction false} DerefPlaces<V>(s: State<V>, pc: PC<V>, m: Move<V>, a: Act<V>)
    requires Ready(s, pc, m) && a == ActOf(s, pc, m) && CallsPlaced(s) && AgentPlaced(s, pc) && (Calls(pc) ==> s.calls == [])
    requires m.Advance? && pc.Guard? && pc.stage.Deref?
    ensures AgentPlaced(a.s, a.pc) && (a.started.Some? ==> AgentPlaced(a.s, a.started.value)) && CallsPlaced(a.s)
  {
    DerefIsQuiet(s);
    assert AgentPlaced(s, Guard(Detach, pc.ret));
    PlacedAlike(s, DerefContinuation(s), Guard(Detach, pc.ret));
  }

  lemma DerefIsQuiet<V>(s: State<V>)
    requires CallsPlaced(s)
    ensures SamePlacing(s, DerefContinuation(s)) && CallsPlaced(DerefContinuation(s))
  {
  }

  lemma {:induction false} FailedDerefPlaces<V>(s: State<V>, pc: PC<V>, m: Move<V>, a: Act<V>)
    requires Ready(s, pc, m) && a == ActOf(s, pc, m) && CallsPlaced(s) && AgentPlaced(s, pc) && (Calls(pc) ==> s.calls == [])
    requires m.Advance? && pc.Guard? && pc.stage.FailedDeref?
    ensures AgentPlaced(a.s, a.pc) && (a.started.Some? ==> AgentPlaced(a.s, a.started.value)) && CallsPlaced(a.s)
  {
  }

  lemma {:induction false} DetachPlaces<V>(s: State<V>, pc: PC<V>, m: Move<V>, a: Act<V>)
    requires Ready(s, pc, m) && a == ActOf(s, pc, m) && CallsPlaced(s) && AgentPlaced(s, pc) && (Calls(pc) ==> s.calls == [])
    requires m.Advance? && pc.Guard? && (pc.stage.Detach? || pc.stage.FailedDetach?)
    ensures AgentPlaced(a.s, a.pc) && (a.started.Some? ==> AgentPlaced(a.s, a.started.value)) && CallsPlaced(a.s)
  {
  }

  lemma {:induction false} ActPlaces<V>(s: State<V>, pc: PC<V>, m: Move<V>, a: Act<V>)
    requires Ready(s, pc, m) && a == ActOf(s, pc, m) && CallsPlaced(s) && AgentPlaced(s, pc) && (Calls(pc) ==> s.calls == [])
    ensures AgentPlaced(a.s, a.pc) && (a.started.Some? ==> AgentPlaced(a.s, a.started.value)) && CallsPlaced(a.s)
  {
    if !m.Advance? {
      CallPlaces(s, pc, m, a);
    } else if pc.Guard? {
      if Early(pc.stage) {
        EarlyPlaces(s, pc, m, a);
      } else if pc.stage.Call? {
        MadePlaces(s, pc, m, a);
      } else if pc.stage.Schedule? {
        AskedPlaces(s, pc, m, a);
      } else if pc.stage.Deref? {
        DerefPlaces(s, pc, m, a);
      } else if pc.stage.FailedDeref? {
        FailedDerefPlaces(s, pc, m, a);
      } else {
        DetachPlaces(s, pc, m, a);
      }
    } else if pc.Choose? {
      ChoosePlaces(s, pc, m, a);
    } else if pc.SetStore? || pc.SetLoad? || pc.SetStart? || pc.SetFinish? {
      SetPlaces(s, pc, m, a);
    } else if pc.ContBuild? || pc.ContLoad? || pc.ContStart? || pc.ContFinish? {
      ContPlaces(s, pc, m, a);
    } else {
      PromisePlaces(s, pc, m, a);
    }
  }

  // What a step has to do with where the continuation runs.
  ghost predicate SamePlacing<V>(s: State<V>, s': State<V>) {
    && s'.trigger == s.trigger && s'.job == s.job && s'.made == s.made
    && s'.hasExecutor == s.hasExecutor && s'.forceSched == s.forceSched
    && (s.word.Finished? ==> s'.word.Finished?)
  }

  lemma {:induction false} PlacingStays<V>(s: State<V>, pc: PC<V>, m: Move<V>)
    requires Ready(s, pc, m) && !pc.Choose? && !pc.Guard?
    ensures SamePlacing(s, ActOf(s, pc, m).s)
  {
  }

  lemma {:induction false} GuardingStays<V>(s: State<V>, pc: PC<V>, m: Move<V>)
    requires Ready(s, pc, m) && pc.Guard? && !pc.stage.Call? && !pc.stage.Schedule?
    ensures SamePlacing(s, ActOf(s, pc, m).s)
  {
    var s' := ActOf(s, pc, m).s;
    assert s' in {AttachOne(s), DetachOne(s), RefContinuation(s), DerefContinuation(s)};
  }

  lemma {:induction false} ChoosingMoves<V>(s: State<V>, pc: PC<V>, m: Move<V>)
    requires Ready(s, pc, m) && pc.Choose?
    ensures var s' := ActOf(s, pc, m).s; SamePlacing(s.(trigger := s'.trigger), s')
  {
  }

  lemma {:induction false} CallingMoves<V>(s: State<V>, pc: PC<V>, m: Move<V>)
    requires Ready(s, pc, m) && pc.Guard? && pc.stage.Call?
    ensures var s' := ActOf(s, pc, m).s; SamePlacing(s.(made := s'.made), s') && s'.made != []
  {
  }

  lemma {:induction false} SchedulingMoves<V>(s: State<V>, pc: PC<V>, m: Move<V>)
    requires Ready(s, pc, m) && pc.Guard? && pc.stage.Schedule?
    ensures var s' := ActOf(s, pc, m).s; SamePlacing(s.(job := s'.job), s') && s'.job != Unasked
  {
  }

  lemma {:induction false} OthersStayPlaced<V>(s: State<V>, pc: PC<V>, m: Move<V>, s': State<V>, other: PC<V>)
    requires Ready(s, pc, m) && s' == ActOf(s, pc, m).s && |s.made| == |s.calls| && AgentPlaced(s, pc) && (Calls(pc) ==> s.calls == [])
    requires Apart(s, pc, other) && AgentPlaced(s, other)
    ensures AgentPlaced(s', other)
  {
    if pc.Choose? {
      ChoosingMoves(s, pc, m);
      PlacedAlike(s.(trigger := s'.trigger), s', other);
    } else if !pc.Guard? {
      PlacingStays(s, pc, m);
      PlacedAlike(s, s', other);
    } else if pc.stage.Call? {
      CallingMoves(s, pc, m);
      PlacedApart(s, pc, s.(made := s'.made), other);
      PlacedAlike(s.(made := s'.made), s', other);
    } else if pc.stage.Schedule? {
      SchedulingMoves(s, pc, m);
      PlacedApart(s, pc, s.(job := s'.job), other);
      PlacedAlike(s.(job := s'.job), s', other);
    } else {
      GuardingStays(s, pc, m);
      PlacedAlike(s, s', other);
    }
  }

  lemma {:induction false} PlacedAlike<V>(s: State<V>, s': State<V>, other: PC<V>)
    requires SamePlacing(s, s') && AgentPlaced(s, other)
    ensures AgentPlaced(s', other)
  {
  }

  lemma {:induction false} PlacedApart<V>(s: State<V>, pc: PC<V>, s': State<V>, other: PC<V>)
    requires AgentPlaced(s, pc) && AgentPlaced(s, other) && !Calls(other) && s.made == []
    requires pc.Guard? && if pc.stage.Call? then s' == s.(made := s'.made) && s'.made != [] else pc.stage.Schedule? && s' == s.(job := s'.job)
    ensures AgentPlaced(s', other)
  {
  }

  lemma {:induction false} StepKeepsPlaced<V>(s: State<V>, t: nat, m: Move<V>)
    requires Inv(s) && Placed(s) && Enabled(s, t, m)
    ensures Placed(Step(s, t, m))
  {
    var pc, s' := s.pcs[t], Step(s, t, m);
    var a := ActOf(s, pc, m);
    if Calls(pc) {
      CallerIsFirst(s, t);
    }
    ActPlaces(s, pc, m, a);
    forall u | 0 <= u < |s.pcs| && u != t ensures AgentPlaced(a.s, s.pcs[u]) {
      OthersAreApart(s, t, u);
      OthersStayPlaced(s, pc, m, a.s, s.pcs[u]);
    }
    MovedPlaced(a.s, s.pcs, t, a);
  }

  lemma {:induction false} MovedPlaced<V>(s: State<V>, pcs: seq<PC<V>>, t: nat, a: Act<V>)
    requires t < |pcs| && CallsPlaced(s) && AgentPlaced(s, a.pc) && (a.started.Some? ==> AgentPlaced(s, a.started.value))
    requires forall u :: 0 <= u < |pcs| && u != t ==> AgentPlaced(s, pcs[u])
    ensures Placed(s.(pcs := Moved(pcs, t, a)))
  {
    var s' := s.(pcs := Moved(pcs, t, a));
    forall u | 0 <= u < |s'.pcs| ensures AgentPlaced(s', s'.pcs[u]) {
      assert s'.pcs[u] == if u == t then a.pc else if u < |pcs| then pcs[u] else a.started.value;
      PlacedAlike(s, s', s'.pcs[u]);
    }
  }

  lemma {:induction false} MoveOf<V(!new)>(run: seq<State<V>>, i: nat) returns (t: nat, m: Move<V>)
    requires IsRun(run) && 0 < i < |run|
    ensures Enabled(run[i - 1], t, m) && run[i] == Step(run[i - 1], t, m)
  {
    assert StepAt(run, i);
    t, m :| Enabled(run[i - 1], t, m) && run[i] == Step(run[i - 1], t, m);
  }

  lemma {:induction false} OptionsStay<V>(s: State<V>, t: nat, m: Move<V>)
    requires Enabled(s, t, m)
    ensures Step(s, t, m).hasExecutor == s.hasExecutor && Step(s, t, m).forceSched == s.forceSched
  {
    var pc := s.pcs[t];
    if pc.Choose? {
      ChoosingMoves(s, pc, m);
    } else if !pc.Guard? {
      PlacingStays(s, pc, m);
    } else if pc.stage.Call? {
      CallingMoves(s, pc, m);
    } else if pc.stage.Schedule? {
      SchedulingMoves(s, pc, m);
    } else {
      GuardingStays(s, pc, m);
    }
  }

  lemma {:induction false} RunKeepsPlaced<V(!new)>(run: seq<State<V>>, i: nat)
    requires IsRun(run) && FewReferences(run) && i < |run|
    ensures Placed(run[i]) && run[i].hasExecutor == run[0].hasExecutor && run[i].forceSched == run[0].forceSched
  {
    if i > 0 {
      RunKeepsPlaced(run, i - 1);
      RunKeepsInv(run, i - 1);
      var t, m := MoveOf(run, i);
      StepKeepsPlaced(run[i - 1], t, m);
      OptionsStay(run[i - 1], t, m);
    }
  }

  // Where the continuation runs, on every run in which nothing but an executor is asked to force
  // the scheduling: nobody schedules without an executor; the executor is asked if and only if it
  // has to be; a call that is made in place, and not because the executor refused, is one where it
  // does not have to be; and a job that was taken is what makes the call.
  lemma {:induction false} CallIsPlaced<V(!new)>(run: seq<State<V>>, i: nat)
    requires IsRun(run) && FewReferences(run) && i < |run| && (run[0].forceSched ==> run[0].hasExecutor)
    ensures PlacedRight(run[i])
  {
    RunKeepsPlaced(run, i);
    PlacedIsRight(run[i]);
  }

  ghost predicate PlacedRight<V>(s: State<V>) {
    && (forall t :: 0 <= t < |s.pcs| && s.pcs[t].Guard? && Scheduling(s.pcs[t].stage) ==> s.hasExecutor)
    && |s.made| == |s.calls|
    && (s.job != Unasked ==> s.trigger.Some? && MustSchedule(s, s.trigger.value))
    && (s.made != [] ==> s.trigger.Some? && CallRight(s, s.trigger.value, s.made[0]))
  }

  ghost predicate CallRight<V>(s: State<V>, trigger: Trigger, caller: Return) {
    && (s.job != Unasked <==> MustSchedule(s, trigger))
    && (caller == ToExecutor <==> s.job == Accepted)
    && (caller != ToExecutor && s.job != Refused ==>
          !s.forceSched && (!s.hasExecutor || caller == ToFuture || trigger.inExecutor))
    && (s.forceSched && s.job != Refused ==> caller == ToExecutor)
  }

  lemma {:induction false} PlacedIsRight<V>(s: State<V>)
    requires Placed(s) && (s.forceSched ==> s.hasExecutor)
    ensures PlacedRight(s)
  {
    forall t | 0 <= t < |s.pcs| && s.pcs[t].Guard? && Scheduling(s.pcs[t].stage) ensures s.hasExecutor {
      assert AgentPlaced(s, s.pcs[t]);
    }
  }

  // ---------------------------------------------------------------------------------------
  // What is delivered
  // ---------------------------------------------------------------------------------------

  // Who is about to store a result is the one setter, and has what was sent.
  ghost predicate Sends<V>(s: State<V>, pc: PC<V>) { pc.SetStore? ==> s.claimed && s.sent == Some(pc.v) }

  ghost predicate Faithful<V>(s: State<V>) {
    && (forall t :: 0 <= t < |s.pcs| ==> Sends(s, s.pcs[t]))
    && (s.result.Some? ==> s.claimed && s.result == s.sent)
  }

  // Nobody has sent anything when the last promise breaks.
  lemma {:induction false} BreakIsFirst<V>(s: State<V>, t: nat)
    requires Inv(s) && t < |s.pcs| && s.pcs[t] == DropCheck(true) && !s.word.HasResult()
    ensures !s.claimed
  {
    RestIsFine(s, t);
    BreakCounts(s, Rest(s.pcs, t));
  }

  lemma BreakCounts<V>(s: State<V>, r: Sum)
    requires Fine(r) && InvWith(s, Plus(r, Dropper(true))) && !s.word.HasResult()
    ensures !s.claimed
  {
  }

  predicate Claims<V>(s: State<V>, pc: PC<V>, m: Move<V>) {
    m.CallSetResult? || (m.Advance? && pc == DropCheck(true) && !s.word.HasResult())
  }

  // Only a claim changes what was sent, and only a store what was stored.
  lemma {:induction false} ActSends<V>(s: State<V>, pc: PC<V>, m: Move<V>, a: Act<V>)
    requires Ready(s, pc, m) && a == ActOf(s, pc, m) && !Claims(s, pc, m)
    ensures a.s.claimed == s.claimed && a.s.sent == s.sent && !a.pc.SetStore? && (a.started.Some? ==> !a.started.value.SetStore?)
    ensures a.s.result == if m.Advance? && pc.SetStore? then Some(pc.v) else s.result
  {
    if m.Advance? && pc.Guard? {
      GuardSends(s, pc.stage, pc.ret, m.accepted);
    }
  }

  ghost predicate Aside<V>(s: State<V>, a: Act<V>) {
    && a.s.claimed == s.claimed && a.s.sent == s.sent && a.s.result == s.result
    && !a.pc.SetStore? && (a.started.Some? ==> !a.started.value.SetStore?)
  }

  lemma {:induction false} GuardSends<V>(s: State<V>, stage: Stage, ret: Return, accepted: bool)
    requires stage.Call? ==> s.value.Some?
    ensures Aside(s, GuardAct(s, stage, ret, accepted))
  {
    if stage.Deref? || stage.FailedDeref? {
      DerefAside(s);
    } else if stage.Detach? {
      BackAside<V>(ret);
    }
  }

  lemma DerefAside<V>(s: State<V>)
    ensures DerefContinuation(s).claimed == s.claimed && DerefContinuation(s).sent == s.sent && DerefContinuation(s).result == s.result
  {
  }

  lemma BackAside<V>(ret: Return)
    ensures !Back<V>(ret).SetStore?
  {
  }

  lemma {:induction false} ClaimSends<V>(s: State<V>, pc: PC<V>, m: Move<V>, a: Act<V>)
    requires Ready(s, pc, m) && a == ActOf(s, pc, m) && Claims(s, pc, m)
    ensures a.s.claimed && a.pc.SetStore? && a.s.sent == Some(a.pc.v) && a.started.None? && a.s.result == s.result
    ensures m.CallSetResult? ==> a.s.sent == Some(m.v)
  {
  }

  lemma {:induction false} StepIsFaithful<V>(s: State<V>, t: nat, m: Move<V>)
    requires Inv(s) && Faithful(s) && Enabled(s, t, m)
    ensures Faithful(Step(s, t, m))
    ensures s.claimed ==> Step(s, t, m).claimed && Step(s, t, m).sent == s.sent
  {
    var pc, s' := s.pcs[t], Step(s, t, m);
    var a := ActOf(s, pc, m);
    if Claims(s, pc, m) {
      if m.Advance? {
        BreakIsFirst(s, t);
      }
      ClaimSends(s, pc, m, a);
    } else {
      ActSends(s, pc, m, a);
    }
    assert Sends(s, pc);
    forall u | 0 <= u < |s'.pcs| ensures Sends(s', s'.pcs[u]) {
      assert s'.pcs[u] == if u == t then a.pc else if u < |s.pcs| then s.pcs[u] else a.started.value;
      assert u < |s.pcs| ==> Sends(s, s.pcs[u]);
    }
  }

  lemma {:induction false} RunIsFaithful<V(!new)>(run: seq<State<V>>, i: nat)
    requires IsRun(run) && FewReferences(run) && i < |run|
    ensures Faithful(run[i])
  {
    if i > 0 {
      RunIsFaithful(run, i - 1);
      RunKeepsInv(run, i - 1);
      var t, m := MoveOf(run, i);
      StepIsFaithful(run[i - 1], t, m);
    }
  }

  lemma {:induction false} SentStays<V(!new)>(run: seq<State<V>>, k: nat, i: nat)
    requires IsRun(run) && FewReferences(run) && k <= i < |run| && run[k].claimed
    ensures run[i].claimed && run[i].sent == run[k].sent
    decreases i
  {
    if k < i {
      SentStays(run, k, i - 1);
      ClaimStays(run, i);
    }
  }

  lemma {:induction false} ClaimStays<V(!new)>(run: seq<State<V>>, i: nat)
    requires IsRun(run) && FewReferences(run) && 0 < i < |run| && run[i - 1].claimed
    ensures run[i].claimed && run[i].sent == run[i - 1].sent
  {
    RunIsFaithful(run, i - 1);
    RunKeepsInv(run, i - 1);
    var t, m := MoveOf(run, i);
    StepIsFaithful(run[i - 1], t, m);
  }

  // On every run, the value of a call of setResult is the result from when it is stored, and so the
  // one that the continuation is called with.
  lemma {:induction false} SentIsDelivered<V(!new)>(run: seq<State<V>>, k: nat, i: nat, t: nat, v: V)
    requires IsRun(run) && FewReferences(run) && 0 < k <= i < |run|
    requires Enabled(run[k - 1], t, CallSetResult(v)) && run[k] == Step(run[k - 1], t, CallSetResult(v))
    ensures run[i].result.Some? ==> run[i].result == Some(v)
    ensures run[i].calls != [] ==> run[i].calls == [v]
  {
    ClaimSends(run[k - 1], run[k - 1].pcs[t], CallSetResult(v), ActOf(run[k - 1], run[k - 1].pcs[t], CallSetResult(v)));
    SentStays(run, k, i);
    RunIsFaithful(run, i);
    EveryRunIsSafe(run, i);
  }
}
