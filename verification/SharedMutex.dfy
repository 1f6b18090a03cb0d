/**
 The reader/writer lock in one word, as an interleaving machine of any number of coroutines. The
 word is only touched under the inner lock `mut_`; taking it, releasing it, and every test or
 change of the word are steps of their own. A wait on a gate releases the inner lock and may take
 it again at any time to test once more, so nothing depends on who is notified.
 */
module SharedMutex {
  import opened Sums
  import opened Wrappers

  const FLAG: nat := 0x8000_0000
  const MAX_READERS: nat := 0x7fff_ffff

  datatype Outcome = ToIdle | ToWrite | ToRead

  datatype PC =
    | Idle
    // exclusive ownership
    | LockEnter | LockTest | LockGate1 | LockSet | LockDrain | LockGate2
    | TryLockEnter | TryLockTest
    | Writes
    | UnlockEnter | UnlockReset
    // shared ownership
    | SharedEnter | SharedTest | SharedGate1
    | TrySharedEnter | TrySharedTest
    | Reads
    | UnlockSharedEnter | UnlockSharedDrop
    // the end of a critical section
    | Release(outcome: Outcome)

  datatype State = State(word: nat, mut: Option<nat>, pcs: seq<PC>)

  predicate WriteEntered(word: nat) { word / 0x8000_0000 % 2 == 1 }

  function Readers(word: nat): nat { word % 0x8000_0000 }

  function SetFlag(word: nat): nat { if WriteEntered(word) then word else word + 0x8000_0000 }

  function Wrap(x: int): nat { x % 0x1_0000_0000 }

  datatype Move = Lock | TryLock | Unlock | LockShared | TryLockShared | UnlockShared | Advance

  // Between calls a coroutine may start any; the unlocks only by who holds the lock that way.
  predicate Enabled(s: State, t: nat, m: Move) {
    && t < |s.pcs|
    && match m
       case Lock | TryLock | LockShared | TryLockShared => s.pcs[t].Idle?
       case Unlock => s.pcs[t].Writes?
       case UnlockShared => s.pcs[t].Reads?
       case Advance => !s.pcs[t].Idle? && !s.pcs[t].Writes? && !s.pcs[t].Reads? && (Enters(s.pcs[t]) ==> s.mut.None?)
  }

  // Waiting for the inner lock.
  predicate Enters(pc: PC) {
    pc.LockEnter? || pc.LockGate1? || pc.LockGate2? || pc.UnlockEnter? || pc.SharedEnter? || pc.SharedGate1? || pc.UnlockSharedEnter?
  }

  function Goto(s: State, t: nat, pc: PC): State
    requires t < |s.pcs|
  {
    s.(pcs := s.pcs[t := pc])
  }

  function Start(m: Move): PC
    requires !m.Advance?
  {
    match m
    case Lock => LockEnter
    case TryLock => TryLockEnter
    case Unlock => UnlockEnter
    case LockShared => SharedEnter
    case TryLockShared => TrySharedEnter
    case UnlockShared => UnlockSharedEnter
  }

  // Where a coroutine goes once it has the inner lock.
  function Entered(pc: PC): PC {
    match pc
    case LockEnter | LockGate1 => LockTest
    case LockGate2 => LockDrain
    case TryLockEnter => TryLockTest
    case UnlockEnter => UnlockReset
    case SharedEnter | SharedGate1 => SharedTest
    case TrySharedEnter => TrySharedTest
    case UnlockSharedEnter => UnlockSharedDrop
    case _ => pc
  }

  function Step(s: State, t: nat, m: Move): State
    requires Enabled(s, t, m)
  {
    if m.Advance? then StepPC(s, t) else Goto(s, t, Start(m))
  }

  function StepPC(s: State, t: nat): State
    requires Enabled(s, t, Advance)
  {
    var pc := s.pcs[t];
    match pc
    case LockEnter | LockGate1 | LockGate2 | UnlockEnter | SharedEnter | SharedGate1 | UnlockSharedEnter =>
      Goto(s, t, Entered(pc)).(mut := Some(t))
    case TryLockEnter | TrySharedEnter =>
      if s.mut.None? then Goto(s, t, Entered(pc)).(mut := Some(t)) else Goto(s, t, Idle)
    case LockTest => if WriteEntered(s.word) then Goto(s, t, LockGate1).(mut := None) else Goto(s, t, LockSet)
    case LockSet => Goto(s, t, LockDrain).(word := SetFlag(s.word))
    case LockDrain => if Readers(s.word) != 0 then Goto(s, t, LockGate2).(mut := None) else Goto(s, t, Release(ToWrite))
    case TryLockTest =>
      if s.word == 0 then Goto(s, t, Release(ToWrite)).(word := FLAG) else Goto(s, t, Release(ToIdle))
    case UnlockReset => Goto(s, t, Release(ToIdle)).(word := 0)
    case SharedTest =>
      if s.word >= MAX_READERS then Goto(s, t, SharedGate1).(mut := None)
      else Goto(s, t, Release(ToRead)).(word := Wrap(s.word + 1))
    case TrySharedTest =>
      if s.word < MAX_READERS then Goto(s, t, Release(ToRead)).(word := Wrap(s.word + 1)) else Goto(s, t, Release(ToIdle))
    case UnlockSharedDrop => Goto(s, t, Release(ToIdle)).(word := Wrap(s.word - 1))
    case Release(outcome) =>
      Goto(s, t, match outcome case ToIdle => Idle case ToWrite => Writes case ToRead => Reads).(mut := None)
  }

  predicate Init(s: State) {
    s.word == 0 && s.mut == None && forall t :: 0 <= t < |s.pcs| ==> s.pcs[t] == Idle
  }

  ghost predicate CanStep(s: State, s': State) {
    exists t: nat, m :: Enabled(s, t, m) && s' == Step(s, t, m)
  }

  ghost predicate IsRun(run: seq<State>) {
    |run| > 0 && Init(run[0]) && forall i :: 0 < i < |run| ==> CanStep(run[i - 1], run[i])
  }

  // ------------------------------------------------------------------ the invariant

  // A writer from setting the flag to its reset: pending while it drains the readers, then holding.
  function Flagged(pc: PC): nat {
    if pc.LockDrain? || pc.LockGate2? || Holding(pc) then 1 else 0
  }

  predicate Holding(pc: PC) {
    pc == Release(ToWrite) || pc.Writes? || pc.UnlockEnter? || pc.UnlockReset?
  }

  // A reader from its increment to its decrement.
  function Reading(pc: PC): nat {
    if pc == Release(ToRead) || pc.Reads? || pc.UnlockSharedEnter? || pc.UnlockSharedDrop? then 1 else 0
  }

  predicate HasMut(pc: PC) {
    || pc.LockTest? || pc.LockSet? || pc.LockDrain? || pc.TryLockTest? || pc.UnlockReset?
    || pc.SharedTest? || pc.TrySharedTest? || pc.UnlockSharedDrop? || pc.Release?
  }

  function Writers(s: State): nat { Total(s.pcs, Flagged) }

  function ReaderHolds(s: State): nat { Total(s.pcs, Reading) }

  predicate ThreadInv(s: State, t: nat)
    requires t < |s.pcs|
  {
    && (s.mut == Some(t) <==> HasMut(s.pcs[t]))
    && (s.pcs[t].LockSet? ==> !WriteEntered(s.word))
    && (Holding(s.pcs[t]) ==> Readers(s.word) == 0)
  }

  predicate Inv(s: State) {
    && s.word == FLAG * Writers(s) + ReaderHolds(s)
    && Writers(s) <= 1 && ReaderHolds(s) <= MAX_READERS
    && forall t :: 0 <= t < |s.pcs| ==> ThreadInv(s, t)
  }

  lemma {:induction false} WordParts(flag: nat, readers: nat)
    requires flag <= 1 && readers <= MAX_READERS
    ensures WriteEntered(FLAG * flag + readers) <==> flag == 1
    ensures Readers(FLAG * flag + readers) == readers
  {
  }

  lemma {:induction false} InitInv(s: State)
    requires Init(s)
    ensures Inv(s)
  {
    TotalZero(s.pcs, Flagged);
    TotalZero(s.pcs, Reading);
  }

  lemma {:induction false} Count(s: State, t: nat, pc: PC)
    requires Inv(s) && t < |s.pcs|
    ensures Writers(Goto(s, t, pc)) == Writers(s) - Flagged(s.pcs[t]) + Flagged(pc)
    ensures ReaderHolds(Goto(s, t, pc)) == ReaderHolds(s) - Reading(s.pcs[t]) + Reading(pc)
    ensures Writers(s) >= Flagged(s.pcs[t]) && ReaderHolds(s) >= Reading(s.pcs[t])
    ensures WriteEntered(s.word) <==> Writers(s) == 1
    ensures Readers(s.word) == ReaderHolds(s)
  {
    TotalUpdate(s.pcs, t, pc, Flagged);
    TotalUpdate(s.pcs, t, pc, Reading);
    WordParts(Writers(s), ReaderHolds(s));
  }

  lemma {:induction false} OneWriter(s: State, t: nat, u: nat)
    requires Writers(s) <= 1 && t < |s.pcs| && u < |s.pcs| && t != u
    ensures Flagged(s.pcs[t]) + Flagged(s.pcs[u]) <= 1
  {
    TotalUpdate(s.pcs, t, Idle, Flagged);
    TotalUpdate(s.pcs[t := Idle], u, Idle, Flagged);
  }

  lemma {:induction false} NoReader(s: State, t: nat)
    requires ReaderHolds(s) == 0 && t < |s.pcs|
    ensures Reading(s.pcs[t]) == 0
  {
    TotalUpdate(s.pcs, t, Idle, Reading);
  }

  // The other coroutines, after a step of t that keeps or releases its inner lock, or takes a free one.
  lemma {:induction false} OthersKept(s: State, t: nat, s': State)
    requires Inv(s) && t < |s.pcs| == |s'.pcs|
    requires forall u :: 0 <= u < |s.pcs| && u != t ==> s'.pcs[u] == s.pcs[u]
    requires s'.mut == s.mut || (s.mut == None && s'.mut == Some(t)) || (s.mut == Some(t) && s'.mut == None)
    requires s'.word == s.word || s.mut == Some(t)
    requires ThreadInv(s', t)
    requires forall u :: 0 <= u < |s.pcs| && u != t && Holding(s.pcs[u]) ==> Readers(s'.word) == 0
    ensures forall u :: 0 <= u < |s'.pcs| ==> ThreadInv(s', u)
  {
    forall u | 0 <= u < |s'.pcs|
      ensures ThreadInv(s', u)
    {
      assert ThreadInv(s, u);
    }
  }

  // A step that leaves the word alone.
  lemma {:induction false} MoveKeepsInv(s: State, t: nat, pc: PC, mut: Option<nat>)
    requires Inv(s) && t < |s.pcs|
    requires Flagged(pc) == Flagged(s.pcs[t]) && Reading(pc) == Reading(s.pcs[t])
    requires mut == s.mut || (s.mut == None && mut == Some(t)) || (s.mut == Some(t) && mut == None)
    requires mut == Some(t) <==> HasMut(pc)
    requires pc.LockSet? ==> !WriteEntered(s.word)
    requires Holding(pc) ==> Holding(s.pcs[t]) || Readers(s.word) == 0
    ensures Inv(Goto(s, t, pc).(mut := mut))
  {
    assert ThreadInv(s, t);
    Count(s, t, pc);
    forall u | 0 <= u < |s.pcs| && u != t && Holding(s.pcs[u])
      ensures Readers(s.word) == 0
    {
      assert ThreadInv(s, u);
    }
    OthersKept(s, t, Goto(s, t, pc).(mut := mut));
  }

  lemma {:induction false} EntersKeepsInv(s: State, t: nat)
    requires Inv(s) && Enabled(s, t, Advance) && s.mut.None?
    requires Enters(s.pcs[t]) || s.pcs[t].TryLockEnter? || s.pcs[t].TrySharedEnter?
    ensures Inv(StepPC(s, t))
  {
    assert ThreadInv(s, t);
    MoveKeepsInv(s, t, Entered(s.pcs[t]), Some(t));
  }

  lemma {:induction false} FlagKeepsInv(s: State, t: nat, pc: PC)
    requires Inv(s) && t < |s.pcs| && s.mut == Some(t) && !WriteEntered(s.word)
    requires Flagged(s.pcs[t]) == 0 && Reading(s.pcs[t]) == 0
    requires pc.LockDrain? || (pc == Release(ToWrite) && s.word == 0)
    ensures Inv(Goto(s, t, pc).(word := SetFlag(s.word)))
  {
    Count(s, t, pc);
    WordParts(1, ReaderHolds(s));
    forall u | 0 <= u < |s.pcs| && u != t
      ensures !Holding(s.pcs[u])
    {
      TotalUpdate(s.pcs, u, Idle, Flagged);
    }
    OthersKept(s, t, Goto(s, t, pc).(word := SetFlag(s.word)));
  }

  lemma {:induction false} ResetKeepsInv(s: State, t: nat)
    requires Inv(s) && t < |s.pcs| && s.mut == Some(t) && s.pcs[t].UnlockReset?
    ensures Inv(StepPC(s, t))
  {
    assert ThreadInv(s, t);
    Count(s, t, Release(ToIdle));
    OthersKept(s, t, StepPC(s, t));
  }

  lemma {:induction false} ReaderKeepsInv(s: State, t: nat, pc: PC, word: nat)
    requires Inv(s) && t < |s.pcs| && s.mut == Some(t) && HasMut(pc) && !pc.LockSet?
    requires Flagged(s.pcs[t]) == 0 && Flagged(pc) == 0
    requires word + Reading(s.pcs[t]) == s.word + Reading(pc)
    requires Reading(pc) > Reading(s.pcs[t]) ==> s.word < MAX_READERS
    ensures Inv(Goto(s, t, pc).(word := word))
  {
    Count(s, t, pc);
    forall u | 0 <= u < |s.pcs| && u != t && Holding(s.pcs[u])
      ensures Readers(word) == 0
    {
      assert ThreadInv(s, u);
      TotalUpdate(s.pcs, u, Idle, Flagged);
    }
    OthersKept(s, t, Goto(s, t, pc).(word := word));
  }

  lemma {:induction false} StepKeepsInv(s: State, t: nat, m: Move)
    requires Inv(s) && Enabled(s, t, m)
    ensures Inv(Step(s, t, m))
  {
    assert ThreadInv(s, t);
    if !m.Advance? {
      MoveKeepsInv(s, t, Start(m), s.mut);
    } else if !HasMut(s.pcs[t]) {
      if s.mut.None? {
        EntersKeepsInv(s, t);
      } else {
        MoveKeepsInv(s, t, Idle, s.mut);
      }
    } else {
      SectionKeepsInv(s, t);
    }
  }

  lemma {:induction false} ReleaseKeepsInv(s: State, t: nat)
    requires Inv(s) && Enabled(s, t, Advance) && s.pcs[t].Release?
    ensures Inv(StepPC(s, t))
  {
    assert ThreadInv(s, t);
    MoveKeepsInv(s, t, StepPC(s, t).pcs[t], None);
  }

  lemma {:induction false} WriterSectionKeepsInv(s: State, t: nat)
    requires Inv(s) && Enabled(s, t, Advance)
    requires s.pcs[t].LockTest? || s.pcs[t].LockSet? || s.pcs[t].LockDrain? || s.pcs[t].TryLockTest?
    ensures Inv(StepPC(s, t))
  {
    assert ThreadInv(s, t);
    if s.pcs[t].LockSet? {
      FlagKeepsInv(s, t, LockDrain);
    } else if s.pcs[t].TryLockTest? && s.word == 0 {
      FlagKeepsInv(s, t, Release(ToWrite));
    } else {
      MoveKeepsInv(s, t, StepPC(s, t).pcs[t], StepPC(s, t).mut);
    }
  }

  lemma {:induction false} DropKeepsInv(s: State, t: nat)
    requires Inv(s) && Enabled(s, t, Advance) && s.pcs[t].UnlockSharedDrop?
    ensures Inv(StepPC(s, t))
  {
    assert ThreadInv(s, t);
    Count(s, t, Release(ToIdle));
    assert 1 <= s.word < 0x1_0000_0000;
    assert Wrap(s.word - 1) == s.word - 1;
    ReaderKeepsInv(s, t, Release(ToIdle), s.word - 1);
  }

  lemma {:induction false} ShareKeepsInv(s: State, t: nat)
    requires Inv(s) && Enabled(s, t, Advance)
    requires s.pcs[t].SharedTest? || s.pcs[t].TrySharedTest?
    ensures Inv(StepPC(s, t))
  {
    assert ThreadInv(s, t);
    if s.word < MAX_READERS {
      assert Wrap(s.word + 1) == s.word + 1;
      ReaderKeepsInv(s, t, Release(ToRead), s.word + 1);
    } else {
      MoveKeepsInv(s, t, StepPC(s, t).pcs[t], StepPC(s, t).mut);
    }
  }

  lemma {:induction false} SectionKeepsInv(s: State, t: nat)
    requires Inv(s) && Enabled(s, t, Advance) && HasMut(s.pcs[t])
    ensures Inv(StepPC(s, t))
  {
    assert ThreadInv(s, t);
    match s.pcs[t]
    case UnlockReset => ResetKeepsInv(s, t);
    case SharedTest | TrySharedTest => ShareKeepsInv(s, t);
    case UnlockSharedDrop => DropKeepsInv(s, t);
    case Release(_) => ReleaseKeepsInv(s, t);
    case _ => WriterSectionKeepsInv(s, t);
  }

  // ------------------------------------------------------------------ every run

  lemma {:induction false} RunInv(run: seq<State>, i: nat)
    requires IsRun(run) && i < |run|
    ensures Inv(run[i])
  {
    if i == 0 {
      InitInv(run[0]);
    } else {
      RunInv(run, i - 1);
      assert CanStep(run[i - 1], run[i]);
      var t: nat, m :| Enabled(run[i - 1], t, m) && run[i] == Step(run[i - 1], t, m);
      StepKeepsInv(run[i - 1], t, m);
    }
  }

  // What is kept on every run.
  ghost predicate Safe(s: State) {
    // the word is the flag of the one pending or holding writer, and the number of readers
    && s.word == FLAG * Writers(s) + ReaderHolds(s) && s.word < 0x1_0000_0000
    && Writers(s) <= 1 && ReaderHolds(s) <= MAX_READERS
    // a holding writer shares the lock with nobody
    && (forall t, u :: 0 <= t < |s.pcs| && 0 <= u < |s.pcs| && t != u && Holding(s.pcs[t]) ==>
          Flagged(s.pcs[u]) == 0 && Reading(s.pcs[u]) == 0)
    // the assertions of unlock and unlockShared hold, and that of the destructor when all is released
    && (forall t :: 0 <= t < |s.pcs| && s.pcs[t].UnlockReset? ==> WriteEntered(s.word))
    && (forall t :: 0 <= t < |s.pcs| && s.pcs[t].UnlockSharedDrop? ==> Readers(s.word) > 0)
    && ((forall t :: 0 <= t < |s.pcs| ==> s.pcs[t].Idle?) ==> s.word == 0)
  }

  lemma {:induction false} InvIsSafe(s: State)
    requires Inv(s)
    ensures Safe(s)
  {
    forall t, u | 0 <= t < |s.pcs| && 0 <= u < |s.pcs| && t != u && Holding(s.pcs[t])
      ensures Flagged(s.pcs[u]) == 0 && Reading(s.pcs[u]) == 0
    {
      assert ThreadInv(s, t);
      WordParts(Writers(s), ReaderHolds(s));
      OneWriter(s, t, u);
      NoReader(s, u);
    }
    forall t | 0 <= t < |s.pcs|
      ensures s.pcs[t].UnlockReset? ==> WriteEntered(s.word)
      ensures s.pcs[t].UnlockSharedDrop? ==> Readers(s.word) > 0
    {
      Count(s, t, s.pcs[t]);
    }
    if forall t :: 0 <= t < |s.pcs| ==> s.pcs[t].Idle? {
      TotalZero(s.pcs, Flagged);
      TotalZero(s.pcs, Reading);
    }
  }

  lemma {:induction false} EveryRunIsSafe(run: seq<State>, i: nat)
    requires IsRun(run) && i < |run|
    ensures Safe(run[i])
  {
    RunInv(run, i);
    InvIsSafe(run[i]);
  }

  lemma {:induction false} FlaggedStep(s: State, t: nat, m: Move)
    requires Inv(s) && Enabled(s, t, m) && WriteEntered(s.word)
    ensures ReaderHolds(Step(s, t, m)) <= ReaderHolds(s)
  {
    Count(s, t, Step(s, t, m).pcs[t]);
  }

  // While the flag stays set, no step adds a reader.
  lemma {:induction false} ReadersOnlyLeave(run: seq<State>, i: nat, j: nat)
    requires IsRun(run) && i <= j < |run|
    requires forall k :: i <= k <= j ==> WriteEntered(run[k].word)
    ensures ReaderHolds(run[j]) <= ReaderHolds(run[i])
    decreases j - i
  {
    if i < j {
      ReadersOnlyLeave(run, i, j - 1);
      var s := run[j - 1];
      RunInv(run, j - 1);
      assert CanStep(s, run[j]);
      var t: nat, m :| Enabled(s, t, m) && run[j] == Step(s, t, m);
      assert WriteEntered(s.word);
      FlaggedStep(s, t, m);
    }
  }

  // What a coroutine with the inner lock is answered. `tryLock` succeeds if and only if nobody holds
  // the lock in either way, and `tryLockShared`, like `lockShared`, if and only if no writer has set
  // the flag and there is room for another reader; a writer may set the flag if and only if no other
  // has, and then has the lock if and only if there are no readers left.
  lemma {:induction false} AttemptAnswers(run: seq<State>, i: nat, t: nat)
    requires IsRun(run) && i < |run| && Enabled(run[i], t, Advance)
    ensures var s, pc := run[i], Step(run[i], t, Advance).pcs[t];
      && (s.pcs[t].TryLockTest? ==> pc == Release(if Writers(s) == 0 && ReaderHolds(s) == 0 then ToWrite else ToIdle))
      && (s.pcs[t].TrySharedTest? ==> pc == Release(if Writers(s) == 0 && ReaderHolds(s) < MAX_READERS then ToRead else ToIdle))
      && (s.pcs[t].SharedTest? ==> pc == if Writers(s) == 0 && ReaderHolds(s) < MAX_READERS then Release(ToRead) else SharedGate1)
      && (s.pcs[t].LockTest? ==> pc == if Writers(s) == 0 then LockSet else LockGate1)
      && (s.pcs[t].LockDrain? ==> pc == if ReaderHolds(s) == 0 then Release(ToWrite) else LockGate2)
  {
    RunInv(run, i);
    WordParts(Writers(run[i]), ReaderHolds(run[i]));
  }
}
