/**
 The optimistic dequeue protocol of one sub-queue, as an interleaving machine: one producer
 publishes elements by moving the tail, any number of consumers take tickets, compare them with
 the tail, and then either claim indices or give their tickets back.

 The counters are the true, unbounded values; the words stored in the queue are their residues,
 and every comparison is made on words, as the source makes it. A single dequeue is a bulk
 dequeue of at most one element (SingleIsBulkOfOne).
 */
module DequeueTickets {
  import opened Words
  import opened Sums

  // The next atomic operation of a consumer, with its live local variables.
  datatype PC =
    | Idle
    | LoadOvercommit(max: nat, tail: nat)
    | LoadCount(max: nat, tail: nat, over: nat)
    | TakeTickets(desired: nat, over: nat)                   // dequeueOptimisticCount.fetch_add(desired)
    | LoadTail(desired: nat, over: nat, ticket: nat)
    | GiveSome(desired: nat, actual: nat, ticket: nat)       // dequeueOvercommit.fetch_add(desired - actual)
    | Claim(actual: nat)                                     // headIndex.fetch_add(actual)
    | GiveAll(desired: nat, ticket: nat)                     // dequeueOvercommit.fetch_add(desired)

  datatype State = State(
    tail: nat,
    head: nat,
    count: nat,                // dequeueOptimisticCount
    overcommit: nat,
    pcs: seq<PC>,
    taken: seq<set<nat>>)      // the indices each consumer has been given

  datatype Move = Publish(k: nat) | Dequeue(t: nat, max: nat) | Advance(t: nat)

  predicate Enabled(s: State, m: Move) {
    |s.taken| == |s.pcs| &&
    match m
    case Publish(_) => true
    case Dequeue(t, _) => t < |s.pcs| && s.pcs[t].Idle?
    case Advance(t) => t < |s.pcs| && !s.pcs[t].Idle?
  }

  function Min(a: nat, b: nat): nat { if a < b then a else b }

  function Step(s: State, m: Move): State
    requires Enabled(s, m)
  {
    match m
    case Publish(k) => s.(tail := s.tail + k)
    case Dequeue(t, max) => s.(pcs := s.pcs[t := LoadOvercommit(max, s.tail)])
    case Advance(t) => StepPC(s, t).(pcs := s.pcs[t := NextPC(s, s.pcs[t])])
  }

  function NextPC(s: State, pc: PC): PC {
    match pc
    case Idle => Idle
    case LoadOvercommit(max, tail) => LoadCount(max, tail, s.overcommit)
    case LoadCount(max, tail, over) =>
      var desired := Word(tail - (s.count - over));
      if CircularLess(0, desired) then TakeTickets(Min(desired, max), over) else Idle
    case TakeTickets(desired, over) => LoadTail(desired, over, s.count)
    case LoadTail(desired, over, ticket) =>
      var available := Word(s.tail - (ticket - over));
      if !CircularLess(0, available) then GiveAll(desired, ticket)
      else if available < desired then GiveSome(desired, available, ticket)
      else Claim(desired)
    case GiveSome(_, actual, _) => Claim(actual)
    case Claim(_) => Idle
    case GiveAll(_, _) => Idle
  }

  function Indices(first: nat, n: nat): (r: set<nat>)
    ensures forall i :: i in r <==> first <= i < first + n
  {
    if n == 0 then {} else Indices(first, n - 1) + {first + n - 1}
  }

  function StepPC(s: State, t: nat): State
    requires t < |s.pcs| == |s.taken|
  {
    match s.pcs[t]
    case TakeTickets(desired, _) => s.(count := s.count + desired)
    case GiveSome(desired, actual, _) => s.(overcommit := s.overcommit + if actual < desired then desired - actual else 0)
    case Claim(actual) => s.(head := s.head + actual, taken := s.taken[t := s.taken[t] + Indices(s.head, actual)])
    case GiveAll(desired, _) => s.(overcommit := s.overcommit + desired)
    case _ => s
  }

  predicate Init(s: State) {
    && s.tail == s.head == s.count == s.overcommit == 0
    && |s.taken| == |s.pcs|
    && (forall t :: 0 <= t < |s.pcs| ==> s.pcs[t] == Idle && s.taken[t] == {})
  }

  ghost predicate CanStep(s: State, s': State) {
    exists m :: Enabled(s, m) && s' == Step(s, m)
  }

  ghost predicate IsRun(run: seq<State>) {
    && |run| > 0
    && Init(run[0])
    && forall i :: 0 < i < |run| ==> CanStep(run[i - 1], run[i])
  }

  // The documented limit on word-sized indices: while a consumer is inside one call, the
  // counters it compares do not run half the word range apart.
  ghost predicate NoLap(s: State) {
    forall t {:trigger s.pcs[t]} :: 0 <= t < |s.pcs| && s.pcs[t].LoadTail? ==> -HALF < s.tail - (s.pcs[t].ticket - s.pcs[t].over) < HALF
  }

  // Tickets taken and not yet turned into a claim or given back.
  function InFlight(pc: PC): nat {
    match pc
    case LoadTail(desired, _, _) => desired
    case GiveSome(desired, _, _) => desired
    case Claim(actual) => actual
    case GiveAll(desired, _) => desired
    case _ => 0
  }

  predicate Given(s: State, i: nat) { exists t :: 0 <= t < |s.taken| && i in s.taken[t] }

  ghost predicate Safe(s: State) {
    && |s.taken| == |s.pcs|
    && s.count == s.head + s.overcommit + Total(s.pcs, InFlight)
    && s.head <= s.tail
    && (forall i: nat :: Given(s, i) <==> i < s.head)
    && (forall t, u :: 0 <= t < u < |s.taken| ==> s.taken[t] !! s.taken[u])
  }

  // ---------------------------------------------------------------------------------------
  // The inductive invariant
  // ---------------------------------------------------------------------------------------

  // What became of each ticket.
  datatype Status = Open(t: nat) | Passed | Failed

  function IsPassed(x: Status): nat { if x.Passed? then 1 else 0 }
  function IsFailed(x: Status): nat { if x.Failed? then 1 else 0 }
  function Passes(status: seq<Status>): nat { Total(status, IsPassed) }
  function Fails(status: seq<Status>): nat { Total(status, IsFailed) }

  // Indices a consumer is entitled to and has not claimed yet.
  function Pending(pc: PC): nat {
    match pc
    case GiveSome(_, actual, _) => actual
    case Claim(actual) => actual
    case _ => 0
  }

  function Update(status: seq<Status>, lo: nat, hi: nat, x: Status): (r: seq<Status>)
    requires lo <= hi <= |status|
    ensures |r| == |status|
    ensures forall i :: 0 <= i < |r| ==> r[i] == if lo <= i < hi then x else status[i]
  {
    if lo == hi then status else Update(status, lo, hi - 1, x)[hi - 1 := x]
  }

  function Extend(status: seq<Status>, n: nat, t: nat): (r: seq<Status>)
    ensures |r| == |status| + n
    ensures forall i :: 0 <= i < |r| ==> r[i] == if i < |status| then status[i] else Open(t)
  {
    if n == 0 then status else Extend(status, n - 1, t) + [Open(t)]
  }

  predicate OpenFor(status: seq<Status>, lo: nat, hi: nat, t: nat) {
    lo <= hi <= |status| && forall i :: lo <= i < hi ==> status[i] == Open(t)
  }

  // A ticket that passed is covered: leaving out the tickets below it that failed, there is an
  // element published for it.
  ghost predicate Covered(status: seq<Status>, tail: nat) {
    forall p :: 0 <= p < |status| && status[p].Passed? ==> p + 1 <= tail + Fails(status[..p])
  }

  // Which tickets a thread still has to decide on.
  predicate ThreadInv(s: State, status: seq<Status>, t: nat)
    requires t < |s.pcs|
  {
    match s.pcs[t]
    case LoadCount(_, _, over) => over <= s.overcommit
    case TakeTickets(_, over) => over <= s.overcommit
    case LoadTail(desired, over, ticket) => OpenFor(status, ticket, ticket + desired, t) && over <= Fails(status[..ticket])
    case GiveSome(desired, actual, ticket) => actual < desired && OpenFor(status, ticket + actual, ticket + desired, t)
    case GiveAll(desired, ticket) => OpenFor(status, ticket, ticket + desired, t)
    case _ => true
  }

  predicate Counts(s: State, status: seq<Status>) {
    && |s.taken| == |s.pcs|
    && |status| == s.count
    && Fails(status) == s.overcommit
    && Passes(status) == s.head + Total(s.pcs, Pending)
    && s.count == s.head + s.overcommit + Total(s.pcs, InFlight)
  }

  ghost predicate Inv(s: State, status: seq<Status>) {
    && Counts(s, status)
    && Covered(status, s.tail)
    && (forall t :: 0 <= t < |s.pcs| ==> ThreadInv(s, status, t))
  }

  lemma {:induction false} UpdateCounts(status: seq<Status>, lo: nat, hi: nat, x: Status, t: nat)
    requires OpenFor(status, lo, hi, t)
    ensures Passes(Update(status, lo, hi, x)) == Passes(status) + (if x.Passed? then hi - lo else 0)
    ensures Fails(Update(status, lo, hi, x)) == Fails(status) + (if x.Failed? then hi - lo else 0)
    decreases hi
  {
    if lo < hi {
      var mid := Update(status, lo, hi - 1, x);
      UpdateCounts(status, lo, hi - 1, x, t);
      TotalUpdate(mid, hi - 1, x, IsPassed);
      TotalUpdate(mid, hi - 1, x, IsFailed);
    }
  }

  lemma {:induction false} ExtendCounts(status: seq<Status>, n: nat, t: nat)
    ensures Passes(Extend(status, n, t)) == Passes(status) && Fails(Extend(status, n, t)) == Fails(status)
  {
    if n > 0 {
      ExtendCounts(status, n - 1, t);
      var r := Extend(status, n, t);
      assert r[..|r| - 1] == Extend(status, n - 1, t);
    }
  }

  lemma {:induction false} FailsGrow(status: seq<Status>, status': seq<Status>, k: nat)
    requires k <= |status| && k <= |status'|
    requires forall i :: 0 <= i < k && status[i].Failed? ==> status'[i].Failed?
    ensures Fails(status[..k]) <= Fails(status'[..k])
  {
    if k > 0 {
      FailsGrow(status, status', k - 1);
      assert status[..k][..k - 1] == status[..k - 1] && status'[..k][..k - 1] == status'[..k - 1];
    }
  }

  lemma {:induction false} DisjointCounts(status: seq<Status>)
    ensures Passes(status) + Fails(status) <= |status|
  {
    if status != [] {
      DisjointCounts(status[..|status| - 1]);
    }
  }

  // Why the head never passes the tail: count up to the last ticket that passed. All the passed
  // tickets are among those, and so are enough failed ones.
  lemma {:induction false} CoveredBound(status: seq<Status>, tail: nat)
    requires Covered(status, tail)
    ensures Passes(status) <= tail
  {
    if status != [] {
      var rest := status[..|status| - 1];
      if status[|status| - 1].Passed? {
        DisjointCounts(rest);
      } else {
        forall p | 0 <= p < |rest| && rest[p].Passed? ensures p + 1 <= tail + Fails(rest[..p]) {
          assert rest[..p] == status[..p];
        }
        CoveredBound(rest, tail);
      }
    }
  }

  // Covered tickets stay covered while failures and the tail only grow.
  lemma {:induction false} CoveredStays(status: seq<Status>, status': seq<Status>, tail: nat, tail': nat)
    requires Covered(status, tail) && tail <= tail' && |status| <= |status'|
    requires forall i :: 0 <= i < |status| && status[i].Failed? ==> status'[i].Failed?
    requires forall i :: 0 <= i < |status'| && status'[i].Passed? ==> i < |status| && status[i].Passed?
    ensures Covered(status', tail')
  {
    forall p | 0 <= p < |status'| && status'[p].Passed? ensures p + 1 <= tail' + Fails(status'[..p]) {
      FailsGrow(status, status', p);
    }
  }

  // What a thread still relies on survives another thread deciding its own tickets.
  lemma {:induction false} OthersKeep(s: State, status: seq<Status>, s': State, status': seq<Status>, u: nat)
    requires u < |s.pcs| == |s'.pcs| && s'.pcs[u] == s.pcs[u] && ThreadInv(s, status, u)
    requires s'.overcommit >= s.overcommit && |status'| >= |status|
    requires forall i :: 0 <= i < |status| && (status[i] == Open(u) || status[i].Failed?) ==> status'[i] == status[i]
    ensures ThreadInv(s', status', u)
  {
    if s.pcs[u].LoadTail? {
      FailsGrow(status, status', s.pcs[u].ticket);
    }
  }

  // How the record of tickets follows a step.
  ghost function StatusStep(s: State, status: seq<Status>, m: Move): seq<Status>
    requires Enabled(s, m) && (m.Advance? ==> ThreadInv(s, status, m.t))
  {
    if !m.Advance? then status
    else match s.pcs[m.t]
      case TakeTickets(desired, _) => Extend(status, desired, m.t)
      case LoadTail(desired, _, ticket) =>
        var next := NextPC(s, s.pcs[m.t]);
        if next.GiveAll? then status else Update(status, ticket, ticket + Pending(next), Passed)
      case GiveSome(desired, actual, ticket) => Update(status, ticket + actual, ticket + desired, Failed)
      case GiveAll(desired, ticket) => Update(status, ticket, ticket + desired, Failed)
      case _ => status
  }

  lemma {:induction false} StepOthers(s: State, status: seq<Status>, m: Move)
    requires Inv(s, status) && Enabled(s, m)
    ensures m.Advance? ==> ThreadInv(s, status, m.t)
    ensures var s', status' := Step(s, m), StatusStep(s, status, m);
      forall u :: 0 <= u < |s.pcs| && !(m.Advance? && u == m.t) && !(m.Dequeue? && u == m.t) ==> ThreadInv(s', status', u)
  {
    assert m.Advance? ==> ThreadInv(s, status, m.t);
    var s', status' := Step(s, m), StatusStep(s, status, m);
    forall u: nat | u < |s.pcs| && !(m.Advance? && u == m.t) && !(m.Dequeue? && u == m.t) ensures ThreadInv(s', status', u) {
      OthersKeep(s, status, s', status', u);
    }
  }

  lemma {:induction false} StepTotals(s: State, m: Move)
    requires Enabled(s, m) && m.Advance?
    ensures Total(Step(s, m).pcs, InFlight) == Total(s.pcs, InFlight) - InFlight(s.pcs[m.t]) + InFlight(NextPC(s, s.pcs[m.t]))
    ensures Total(Step(s, m).pcs, Pending) == Total(s.pcs, Pending) - Pending(s.pcs[m.t]) + Pending(NextPC(s, s.pcs[m.t]))
    ensures Total(s.pcs, InFlight) >= InFlight(s.pcs[m.t]) && Total(s.pcs, Pending) >= Pending(s.pcs[m.t])
  {
    TotalUpdate(s.pcs, m.t, NextPC(s, s.pcs[m.t]), InFlight);
    TotalUpdate(s.pcs, m.t, NextPC(s, s.pcs[m.t]), Pending);
  }

  // A consumer that sees enough elements passes: each of its tickets is covered.
  lemma {:induction false} PassingIsCovered(status: seq<Status>, status': seq<Status>, tail: nat, ticket: nat, actual: nat, over: nat, t: nat)
    requires Covered(status, tail) && OpenFor(status, ticket, ticket + actual, t)
    requires over <= Fails(status[..ticket]) && ticket + actual <= tail + over
    requires status' == Update(status, ticket, ticket + actual, Passed)
    ensures Covered(status', tail)
  {
    forall p | 0 <= p < |status'| && status'[p].Passed? ensures p + 1 <= tail + Fails(status'[..p]) {
      FailsGrow(status, status', p);
      if ticket <= p < ticket + actual {
        FailsOfPrefix(status', ticket, p);
        FailsGrow(status, status', ticket);
      }
    }
  }

  // Deciding keeps all the tickets in flight, and entitles to some of them.
  lemma {:induction false} DecidingKeepsTickets(s: State, pc: PC)
    requires pc.LoadTail?
    ensures var next := NextPC(s, pc);
      && InFlight(next) == InFlight(pc) && Pending(next) <= pc.desired && (next.GiveAll? ==> Pending(next) == 0)
      && (next.GiveAll? || next.GiveSome? || next.Claim?)
  {
  }

  lemma {:induction false} PassingCounts(s: State, status: seq<Status>, t: nat)
    requires Counts(s, status) && Enabled(s, Advance(t)) && s.pcs[t].LoadTail? && ThreadInv(s, status, t)
    ensures Counts(Step(s, Advance(t)), StatusStep(s, status, Advance(t)))
  {
    var next, ticket := NextPC(s, s.pcs[t]), s.pcs[t].ticket;
    StepTotals(s, Advance(t));
    DecidingKeepsTickets(s, s.pcs[t]);
    if !next.GiveAll? {
      UpdateCounts(status, ticket, ticket + Pending(next), Passed, t);
    }
  }

  lemma {:induction false} PassingLeaves(s: State, status: seq<Status>, t: nat)
    requires Enabled(s, Advance(t)) && s.pcs[t].LoadTail? && ThreadInv(s, status, t)
    ensures ThreadInv(Step(s, Advance(t)), StatusStep(s, status, Advance(t)), t)
  {
    DecidingKeepsTickets(s, s.pcs[t]);
  }

  lemma {:induction false} PassersAreEntitled(s: State, t: nat)
    requires t < |s.pcs| && s.pcs[t].LoadTail? && NoLap(s) && !NextPC(s, s.pcs[t]).GiveAll?
    ensures Pending(NextPC(s, s.pcs[t])) <= s.pcs[t].desired
    ensures s.pcs[t].ticket + Pending(NextPC(s, s.pcs[t])) <= s.tail + s.pcs[t].over
  {
  }

  lemma {:induction false} PassersAreOpen(s: State, status: seq<Status>, t: nat)
    requires t < |s.pcs| && s.pcs[t].LoadTail? && ThreadInv(s, status, t) && Pending(NextPC(s, s.pcs[t])) <= s.pcs[t].desired
    ensures var pc, taken := s.pcs[t], Pending(NextPC(s, s.pcs[t]));
      && OpenFor(status, pc.ticket, pc.ticket + taken, t)
      && pc.over <= Fails(status[..pc.ticket])
  {
  }

  lemma {:induction false} PassingCovers(s: State, status: seq<Status>, t: nat)
    requires Covered(status, s.tail) && Enabled(s, Advance(t)) && s.pcs[t].LoadTail? && ThreadInv(s, status, t) && NoLap(s)
    ensures Covered(StatusStep(s, status, Advance(t)), s.tail)
  {
    var next, pc := NextPC(s, s.pcs[t]), s.pcs[t];
    if !next.GiveAll? {
      PassersAreEntitled(s, t);
      PassersAreOpen(s, status, t);
      PassingIsCovered(status, StatusStep(s, status, Advance(t)), s.tail, pc.ticket, Pending(next), pc.over, t);
    }
  }

  lemma {:induction false} PassingStep(s: State, status: seq<Status>, t: nat)
    requires Inv(s, status) && Enabled(s, Advance(t)) && s.pcs[t].LoadTail? && ThreadInv(s, status, t) && NoLap(s)
    ensures Inv(Step(s, Advance(t)), StatusStep(s, status, Advance(t)))
  {
    StepOthers(s, status, Advance(t));
    PassingCounts(s, status, t);
    PassingLeaves(s, status, t);
    PassingCovers(s, status, t);
  }

  lemma {:induction false} FailsOfPrefix(status: seq<Status>, j: nat, k: nat)
    requires j <= k <= |status|
    ensures Fails(status[..j]) <= Fails(status[..k])
  {
    if j < k {
      assert status[..k][..k - 1] == status[..k - 1];
      FailsOfPrefix(status, j, k - 1);
    }
  }

  lemma {:induction false} FailingCounts(s: State, status: seq<Status>, t: nat)
    requires Counts(s, status) && Enabled(s, Advance(t)) && (s.pcs[t].GiveSome? || s.pcs[t].GiveAll?) && ThreadInv(s, status, t)
    ensures Counts(Step(s, Advance(t)), StatusStep(s, status, Advance(t)))
  {
    StepTotals(s, Advance(t));
    match s.pcs[t]
    case GiveSome(desired, actual, ticket) => UpdateCounts(status, ticket + actual, ticket + desired, Failed, t);
    case GiveAll(desired, ticket) => UpdateCounts(status, ticket, ticket + desired, Failed, t);
  }

  lemma {:induction false} FailingStep(s: State, status: seq<Status>, t: nat)
    requires Inv(s, status) && Enabled(s, Advance(t)) && (s.pcs[t].GiveSome? || s.pcs[t].GiveAll?) && ThreadInv(s, status, t)
    ensures Inv(Step(s, Advance(t)), StatusStep(s, status, Advance(t)))
  {
    StepOthers(s, status, Advance(t));
    FailingCounts(s, status, t);
    CoveredStays(status, StatusStep(s, status, Advance(t)), s.tail, s.tail);
  }

  lemma {:induction false} OtherStep(s: State, status: seq<Status>, m: Move)
    requires Inv(s, status) && Enabled(s, m)
    requires m.Advance? ==> ThreadInv(s, status, m.t)
    requires m.Advance? ==> !s.pcs[m.t].LoadTail? && !s.pcs[m.t].GiveSome? && !s.pcs[m.t].GiveAll?
    ensures Inv(Step(s, m), StatusStep(s, status, m))
  {
    var s', status' := Step(s, m), StatusStep(s, status, m);
    StepOthers(s, status, m);
    if m.Advance? {
      StepTotals(s, m);
      if s.pcs[m.t].TakeTickets? {
        ExtendCounts(status, s.pcs[m.t].desired, m.t);
        assert status'[..s.count] == status == status[..s.count];
      }
    } else if m.Dequeue? {
      TotalUpdate(s.pcs, m.t, LoadOvercommit(m.max, s.tail), InFlight);
      TotalUpdate(s.pcs, m.t, LoadOvercommit(m.max, s.tail), Pending);
    }
    CoveredStays(status, status', s.tail, s'.tail);
  }

  // What the consumers have been given: every index below the head, each to one of them.
  ghost predicate Partition(s: State) {
    && |s.taken| == |s.pcs|
    && (forall i: nat :: Given(s, i) <==> i < s.head)
    && (forall t, u :: 0 <= t < u < |s.taken| ==> s.taken[t] !! s.taken[u])
  }

  lemma {:induction false} StepKeepsPartition(s: State, m: Move)
    requires Partition(s) && Enabled(s, m)
    ensures Partition(Step(s, m))
  {
    var s' := Step(s, m);
    if m.Advance? && s.pcs[m.t].Claim? {
      var mine := Indices(s.head, s.pcs[m.t].actual);
      forall t, i: nat | 0 <= t < |s.taken| && i in s.taken[t] ensures i < s.head {
        assert Given(s, i);
      }
      forall i: nat ensures Given(s', i) <==> i < s'.head {
        if Given(s, i) {
          var t :| 0 <= t < |s.taken| && i in s.taken[t];
          assert i in s'.taken[t];
        } else if i in mine {
          assert i in s'.taken[m.t];
        }
      }
      forall t, u | 0 <= t < u < |s.taken| ensures s'.taken[t] !! s'.taken[u] {
        assert s.taken[t] !! s.taken[u];
      }
    } else {
      assert s'.taken == s.taken && s'.head == s.head;
      assert forall i: nat :: Given(s', i) <==> Given(s, i);
    }
  }

  lemma {:induction false} StepKeepsInv(s: State, status: seq<Status>, s': State) returns (status': seq<Status>)
    requires Inv(s, status) && Partition(s) && NoLap(s) && CanStep(s, s')
    ensures Inv(s', status') && Partition(s')
  {
    var m :| Enabled(s, m) && s' == Step(s, m);
    assert m.Advance? ==> ThreadInv(s, status, m.t);
    status' := StatusStep(s, status, m);
    StepKeepsPartition(s, m);
    if m.Advance? && s.pcs[m.t].LoadTail? {
      PassingStep(s, status, m.t);
    } else if m.Advance? && (s.pcs[m.t].GiveSome? || s.pcs[m.t].GiveAll?) {
      FailingStep(s, status, m.t);
    } else {
      OtherStep(s, status, m);
    }
  }

  lemma {:induction false} RunKeepsInv(run: seq<State>, i: nat) returns (status: seq<Status>)
    requires IsRun(run) && i < |run| && forall j :: 0 <= j < i ==> NoLap(run[j])
    ensures Inv(run[i], status) && Partition(run[i])
  {
    if i == 0 {
      TotalZero(run[0].pcs, InFlight);
      TotalZero(run[0].pcs, Pending);
      status := [];
    } else {
      status := RunKeepsInv(run, i - 1);
      status := StepKeepsInv(run[i - 1], status, run[i]);
    }
  }

  // ---------------------------------------------------------------------------------------
  // Main results
  // ---------------------------------------------------------------------------------------

  // In every interleaving the tickets balance, the head stays behind the tail, and every index
  // below the head, and no other, has gone to exactly one consumer.
  lemma {:induction false} EveryRunIsSafe(run: seq<State>, i: nat)
    requires IsRun(run) && i < |run| && forall j :: 0 <= j < i ==> NoLap(run[j])
    ensures Safe(run[i])
  {
    var status := RunKeepsInv(run, i);
    CoveredBound(status, run[i].tail);
  }

  // With no consumer inside a call, the word comparison a new call makes is exact: it finds
  // something to dequeue if and only if an element is there.
  lemma {:induction false} QuietQueueIsExact(run: seq<State>, i: nat)
    requires IsRun(run) && i < |run| && forall j :: 0 <= j < i ==> NoLap(run[j])
    requires forall t :: 0 <= t < |run[i].pcs| ==> run[i].pcs[t] == Idle
    requires run[i].tail - run[i].head < HALF
    ensures CircularLess(Word(run[i].count - run[i].overcommit), Word(run[i].tail)) <==> run[i].head < run[i].tail
  {
    EveryRunIsSafe(run, i);
    TotalZero(run[i].pcs, InFlight);
    CircularLessIsLess(run[i].head, run[i].tail);
  }

  // The two tests of the source agree: comparing two words, and comparing zero with their
  // difference.
  lemma SingleIsBulkOfOne(a: int, b: int)
    ensures CircularLess(Word(a), Word(b)) <==> CircularLess(0, Word(b - a))
  {
    WordOfDifference(a, b);
    WordOfDifference(0, b - a);
  }

  // ---------------------------------------------------------------------------------------
  // The only consumer
  // ---------------------------------------------------------------------------------------

  // Consumer t runs alone until it is idle, for k steps at most.
  function Alone(s: State, t: nat, k: nat): State
    decreases k
  {
    if k == 0 || !Enabled(s, Advance(t)) then s else Alone(Step(s, Advance(t)), t, k - 1)
  }

  lemma {:induction false} AloneGoesOn(s: State, t: nat, k: nat, s': State)
    requires Enabled(s, Advance(t)) && s' == Step(s, Advance(t)) && k > 0
    ensures Alone(s, t, k) == Alone(s', t, k - 1)
  {
  }

  lemma {:induction false} AloneIsDone(s: State, t: nat, k: nat)
    requires t < |s.pcs| && s.pcs[t].Idle?
    ensures Alone(s, t, k) == s
  {
  }

  // Nobody is inside a call, and there are n elements.
  predicate Quiet(s: State, n: nat) {
    && |s.taken| == |s.pcs|
    && s.count == s.head + s.overcommit && s.tail == s.head + n && n < HALF
  }

  // Taking n elements from the head.
  function TakenBy(s: State, t: nat, n: nat): State
    requires t < |s.taken|
  {
    s.(head := s.head + n, count := s.count + n, taken := s.taken[t := s.taken[t] + Indices(s.head, n)])
  }

  lemma {:induction false} QuietWords(s: State, n: nat)
    requires Quiet(s, n)
    ensures Word(s.tail - (s.count - s.overcommit)) == n && (CircularLess(0, n) <==> n > 0)
  {
    assert s.tail - (s.count - s.overcommit) == n;
    WordOfSmall(n);
    CircularLessIsLess(0, n);
    WordOfSmall(0);
  }

  lemma WordOfSmall(n: nat)
    requires n < WORD
    ensures Word(n) == n
  {
  }

  lemma {:induction false} LoneDesires(s: State, t: nat, max: nat, n: nat, k: nat)
    requires Quiet(s, n) && t < |s.pcs| && s.pcs[t] == LoadOvercommit(max, s.tail) && k >= 2
    ensures Alone(s, t, k) ==
      if n == 0 then s.(pcs := s.pcs[t := Idle]) else Alone(s.(pcs := s.pcs[t := TakeTickets(Min(n, max), s.overcommit)]), t, k - 2)
  {
    QuietWords(s, n);
    var s1 := s.(pcs := s.pcs[t := LoadCount(max, s.tail, s.overcommit)]);
    AloneGoesOn(s, t, k, s1);
    var pc := if n == 0 then Idle else TakeTickets(Min(n, max), s.overcommit);
    var s2 := s.(pcs := s.pcs[t := pc]);
    assert s2.pcs == s1.pcs[t := pc];
    AloneGoesOn(s1, t, k - 1, s2);
    if n == 0 {
      AloneIsDone(s2, t, k - 2);
    }
  }

  lemma {:induction false} LoneTakes(s: State, t: nat, desired: nat, n: nat, k: nat)
    requires Quiet(s, n) && desired <= n && n > 0 && t < |s.pcs| && s.pcs[t] == TakeTickets(desired, s.overcommit) && k >= 3
    ensures Alone(s, t, k) == TakenBy(s, t, desired).(pcs := s.pcs[t := Idle])
  {
    QuietWords(s, n);
    var s1 := s.(count := s.count + desired, pcs := s.pcs[t := LoadTail(desired, s.overcommit, s.count)]);
    AloneGoesOn(s, t, k, s1);
    var s2 := s.(count := s.count + desired, pcs := s.pcs[t := Claim(desired)]);
    assert s2.pcs == s1.pcs[t := Claim(desired)];
    AloneGoesOn(s1, t, k - 1, s2);
    var s3 := TakenBy(s, t, desired).(pcs := s.pcs[t := Idle]);
    assert s3.pcs == s2.pcs[t := Idle];
    AloneGoesOn(s2, t, k - 2, s3);
    AloneIsDone(s3, t, k - 3);
  }

  // The only consumer is given as many elements as there are, up to the maximum, from the head on.
  lemma {:induction false} LoneDequeue(s: State, t: nat, max: nat, n: nat, k: nat)
    requires Quiet(s, n) && t < |s.pcs| && s.pcs[t].Idle? && k >= 5
    ensures Alone(Step(s, Dequeue(t, max)), t, k) == TakenBy(s, t, Min(n, max))
  {
    var s0 := s.(pcs := s.pcs[t := LoadOvercommit(max, s.tail)]);
    LoneDesires(s0, t, max, n, k);
    if n == 0 {
      assert s0.pcs[t := Idle] == s.pcs;
      assert s.taken[t] + Indices(s.head, 0) == s.taken[t];
      assert s.taken == s.taken[t := s.taken[t]];
    } else {
      var s2 := s.(pcs := s.pcs[t := TakeTickets(Min(n, max), s.overcommit)]);
      assert s2.pcs == s0.pcs[t := TakeTickets(Min(n, max), s.overcommit)];
      LoneTakes(s2, t, Min(n, max), n, k - 2);
      assert s2.pcs[t := Idle] == s.pcs;
    }
  }

  // That is the state of every run in which nobody is inside a call.
  lemma {:induction false} IdleIsQuiet(run: seq<State>, i: nat)
    requires IsRun(run) && i < |run| && forall j :: 0 <= j < i ==> NoLap(run[j])
    requires forall t :: 0 <= t < |run[i].pcs| ==> run[i].pcs[t] == Idle
    requires run[i].tail - run[i].head < HALF
    ensures run[i].head <= run[i].tail && Quiet(run[i], run[i].tail - run[i].head)
  {
    EveryRunIsSafe(run, i);
    TotalZero(run[i].pcs, InFlight);
  }
}
