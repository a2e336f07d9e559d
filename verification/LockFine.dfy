/**
 The lock at the grain of single statements: the spinlock is taken and given back in steps of its
 own, and every field write, the clock reads and `up` are separate steps. Another task's `down_timeout`
 can therefore succeed between `up` and the field writes that follow it. LockRefinement.dfy maps
 every run of this system to a run of LockProtocol.
 */
module LockFine {
  import opened LockSections

  /**
   Places in the code. The lock type in the test and unlock places tells the entry point:
   ShortLock for EnterCritRegion and LeaveCritRegion, LongLock for the two long calls.
   */
  datatype FPC =
    | Out
    | TestWant(t: LockType)                          // before spin_lock of the ownership test
    | TestCompare(t: LockType)                       // line 87 / 120
    | TestMark(t: LockType)                          // line 89
    | TestExit(t: LockType, owned: bool)             // spin_unlock
    | InWait(t: LockType, round: nat)                // line 212
    | GrantWant(t: LockType, round: nat)             // before spin_lock, line 239
    | Grant(t: LockType, round: nat, k: nat)         // lines 240-244 for k = 0..4, spin_unlock for k = 5
    | ExpiryWant(t: LockType, round: nat)            // before spin_lock, line 214
    | ExpiryTest(t: LockType, round: nat)            // lines 215-218
    | ExpiryMark(t: LockType, round: nat)            // line 220
    | StealUp(t: LockType, round: nat)               // line 224
    | StealMode(t: LockType, round: nat)             // line 225
    | StealOwner(t: LockType, round: nat)            // lines 226-227
    | ExpiryExit(t: LockType, round: nat, victim: int) // spin_unlock, line 230
    | InSignal(t: LockType, round: nat, victim: int) // line 232
    | UnlockWant(t: LockType)                        // before spin_lock, line 156
    | UnlockTest(t: LockType)                        // lines 157-184
    | Unlocking(t: LockType, k: nat)                 // lines 189-194 for k = 0..4, spin_unlock for k = 5
    | SimpleLeave                                    // line 194 reached from line 168

  datatype FState = FState(
    lock: Fields,
    clock: nat,
    spin: int,               // holder of the spinlock, 0 when free
    pcs: map<Pid, FPC>,
    inside: multiset<Pid>,   // Enter calls that returned 0 whose task has not called Leave since
    owners: seq<int>,        // every value written to m_lnPID
    accesses: seq<Touch>)    // hardware accesses

  datatype FLabel =
    | FTick
    | CallEnter(p: Pid) | CallLongLock(p: Pid) | CallLeave(p: Pid) | CallLongUnlock(p: Pid)
    | FDown(p: Pid)
    | FExpire(p: Pid)
    | FAccess(p: Pid, reg: nat) // a hardware access of a task that is between Enter's 0 and its Leave
    | Run(p: Pid)            // the task's next statement

  /** The task is between spin_lock and spin_unlock. */
  predicate Holds(pc: FPC) {
    pc.TestCompare? || pc.TestMark? || pc.TestExit? || pc.Grant? || pc.ExpiryTest? || pc.ExpiryMark?
    || pc.StealUp? || pc.StealMode? || pc.StealOwner? || pc.ExpiryExit? || pc.UnlockTest? || pc.Unlocking?
    || pc.SimpleLeave?
  }

  predicate Wants(pc: FPC) {
    pc.TestWant? || pc.GrantWant? || pc.ExpiryWant? || pc.UnlockWant?
  }

  predicate FEnabled(f: FState, l: FLabel) {
    match l
    case FTick => true
    case FDown(p) => p in f.pcs && f.pcs[p].InWait? && f.pcs[p].round < MAX_ROUNDS && f.lock.count > 0
    case FExpire(p) => p in f.pcs && f.pcs[p].InWait? && f.pcs[p].round < MAX_ROUNDS
    case Run(p) =>
      && p in f.pcs && f.pcs[p] != Out
      && (f.pcs[p].InWait? ==> f.pcs[p].round == MAX_ROUNDS)
      && (Wants(f.pcs[p]) ==> f.spin == 0)
    case FAccess(p, _) => p in f.pcs && f.pcs[p] == Out && f.inside[p] > 0
    case _ => l.p in f.pcs && f.pcs[l.p] == Out
  }

  function At(f: FState, p: Pid, pc: FPC): FState {
    f.(pcs := f.pcs[p := pc])
  }

  /** The k-th field write of the acquiring section. */
  function GrantWrite(f: Fields, p: Pid, t: LockType, k: nat, now: nat): Fields {
    if k == 0 then f.(mode := t)
    else if k == 1 then f.(inRegion := true)
    else if k == 2 then f.(toFree := false)
    else if k == 3 then f.(owner := p)
    else f.(start := now)
  }

  /** The k-th statement from label unlockSemaphore on. */
  function UnlockWrite(f: Fields, k: nat): Fields {
    if k == 0 then f.(count := f.count + 1)
    else if k == 1 then f.(owner := NO_OWNER)
    else if k == 2 then f.(toFree := false)
    else if k == 3 then f.(mode := NoLock)
    else f.(inRegion := false)
  }

  /** Where the unlock switch goes. */
  function UnlockTarget(f: Fields, p: Pid, t: LockType): FPC {
    if t == ShortLock then (if LeaveFrees(f) then Unlocking(t, 0) else SimpleLeave)
    else if f.owner == p then Unlocking(t, 0) else Unlocking(t, 5)
  }

  /** The next statement of p. */
  function RunStep(f: FState, p: Pid): FState
    requires FEnabled(f, Run(p))
  {
    match f.pcs[p]
    case TestWant(t) => At(f, p, TestCompare(t)).(spin := p)
    case TestCompare(t) =>
      if f.lock.owner != p then At(f, p, TestExit(t, false))
      else At(f, p, if t == ShortLock then TestMark(t) else TestExit(t, true))
    case TestMark(t) => At(f, p, TestExit(t, true)).(lock := f.lock.(inRegion := true))
    case TestExit(t, owned) =>
      At(f, p, if owned then Out else InWait(t, 0))
        .(spin := 0, inside := if owned && t == ShortLock then f.inside + multiset{p} else f.inside)
    case InWait(t, r) => At(f, p, Out)
    case GrantWant(t, r) => At(f, p, Grant(t, r, 0)).(spin := p)
    case Grant(t, r, k) =>
      if k < 5 then
        At(f, p, Grant(t, r, k + 1))
          .(lock := GrantWrite(f.lock, p, t, k, f.clock), owners := if k == 3 then f.owners + [p] else f.owners)
      else
        At(f, p, Out).(spin := 0, inside := if t == ShortLock then f.inside + multiset{p} else f.inside)
    case ExpiryWant(t, r) => At(f, p, ExpiryTest(t, r)).(spin := p)
    case ExpiryTest(t, r) =>
      At(f, p, if !Overdue(f.lock, f.clock) then ExpiryExit(t, r, 0)
               else if f.lock.inRegion then ExpiryMark(t, r) else StealUp(t, r))
    case ExpiryMark(t, r) => At(f, p, ExpiryExit(t, r, 0)).(lock := f.lock.(toFree := true))
    case StealUp(t, r) => At(f, p, StealMode(t, r)).(lock := f.lock.(count := f.lock.count + 1))
    case StealMode(t, r) => At(f, p, StealOwner(t, r)).(lock := f.lock.(mode := NoLock))
    case StealOwner(t, r) =>
      At(f, p, ExpiryExit(t, r, f.lock.owner))
        .(lock := f.lock.(owner := NO_OWNER), owners := f.owners + [NO_OWNER])
    case ExpiryExit(t, r, v) => At(f, p, if v != 0 then InSignal(t, r, v) else InWait(t, r + 1)).(spin := 0)
    case InSignal(t, r, v) => At(f, p, InWait(t, r + 1))
    case UnlockWant(t) => At(f, p, UnlockTest(t)).(spin := p)
    case UnlockTest(t) => At(f, p, UnlockTarget(f.lock, p, t))
    case Unlocking(t, k) =>
      if k < 5 then
        At(f, p, Unlocking(t, k + 1))
          .(lock := UnlockWrite(f.lock, k), owners := if k == 1 then f.owners + [NO_OWNER] else f.owners)
      else
        At(f, p, Out).(spin := 0)
    case SimpleLeave => At(f, p, Unlocking(ShortLock, 5)).(lock := f.lock.(inRegion := false))
  }

  function FNext(f: FState, l: FLabel): FState
    requires FEnabled(f, l)
  {
    match l
    case FTick => f.(clock := f.clock + 1)
    case CallEnter(p) => At(f, p, TestWant(ShortLock))
    case CallLongLock(p) => At(f, p, TestWant(LongLock))
    case CallLeave(p) => At(f, p, UnlockWant(ShortLock)).(inside := f.inside - multiset{p})
    case CallLongUnlock(p) => At(f, p, UnlockWant(LongLock))
    case FDown(p) =>
      At(f, p, GrantWant(f.pcs[p].t, f.pcs[p].round)).(lock := f.lock.(count := f.lock.count - 1))
    case FExpire(p) => At(f, p, ExpiryWant(f.pcs[p].t, f.pcs[p].round))
    case FAccess(p, reg) => f.(accesses := f.accesses + [Touch(p, reg)])
    case Run(p) => RunStep(f, p)
  }

  predicate FInit(f: FState) {
    && f.lock == Initial(f.lock.timeout)
    && f.spin == 0
    && (forall p :: p in f.pcs ==> f.pcs[p] == Out)
    && f.inside == multiset{}
    && f.owners == []
    && f.accesses == []
  }

  ghost predicate IsFineRun(fs: seq<FState>, ls: seq<FLabel>) {
    && |fs| == |ls| + 1
    && FInit(fs[0])
    && forall i {:trigger ls[i]} :: 0 <= i < |ls| ==> FEnabled(fs[i], ls[i]) && fs[i + 1] == FNext(fs[i], ls[i])
  }

  /** The clients' discipline at the moment of the call. */
  predicate FDisciplined(f: FState, l: FLabel) {
    && (l.CallLeave? ==> f.inside[l.p] > 0)
    && (l.CallEnter? || l.CallLongLock? || l.CallLongUnlock? ==> f.inside[l.p] == 0)
  }
}
