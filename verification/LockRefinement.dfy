/**
 Every statement-level run of the lock maps to a run in which each spinlock section is one step.
 A section that frees the lock takes effect at its `up`; the acquiring section takes effect when it
 reads the clock; the remaining statements are invisible because the spinlock is held.
 */
module LockRefinement {
  import opened LockSections
  import opened LockProtocol
  import opened LockFine
  import LockRuns

  datatype Option<T> = None | Some(value: T)

  /** The section that a statement completes, seen from the other tasks. */
  function AbsLabel(f: FState, l: FLabel): Option<Label>
    requires FEnabled(f, l)
  {
    match l
    case FTick => Some(Tick)
    case FDown(p) => Some(Down(p))
    case FExpire(p) => Some(Expire(p))
    case FAccess(p, reg) => Some(Access(p, reg))
    case Run(p) => (
      match f.pcs[p]
      case TestCompare(t) =>
        if f.lock.owner != p then Some(if t == ShortLock then EnterWait(p) else LongWait(p))
        else if t == ShortLock then None else Some(LongOwned(p))
      case TestMark(t) => Some(EnterOwned(p))
      case InWait(_, _) => Some(GiveUp(p))
      case Grant(_, _, k) => if k == 4 then Some(Acquire(p)) else None
      case ExpiryTest(_, _) => if Overdue(f.lock, f.clock) then None else Some(Expiry(p))
      case ExpiryMark(_, _) => Some(Expiry(p))
      case StealUp(_, _) => Some(Expiry(p))
      case InSignal(_, _, _) => Some(Signal(p))
      case UnlockTest(t) => if t != ShortLock && f.lock.owner != p then Some(LongUnlock(p)) else None
      case Unlocking(t, k) => if k == 0 then Some(if t == ShortLock then Leave(p) else LongUnlock(p)) else None
      case SimpleLeave => Some(Leave(p))
      case _ => None)
    case _ => None
  }

  function Simulate(a: State, la: Option<Label>): State
    requires la.Some? ==> Enabled(a, la.value)
  {
    if la.None? then a else Next(a, la.value)
  }

  /** The abstract place of a task; `owner` is the owner field, which a stealing task has yet to overwrite. */
  function AbsPC(pc: FPC, owner: int): PC {
    match pc
    case TestExit(t, owned) => if owned then Idle else Waiting(t, 0)
    case InWait(t, r) => Waiting(t, r)
    case GrantWant(t, r) => Permit(t, r)
    case Grant(t, r, k) => if k < 5 then Permit(t, r) else Idle
    case ExpiryWant(t, r) => Expired(t, r)
    case ExpiryTest(t, r) => Expired(t, r)
    case ExpiryMark(t, r) => Expired(t, r)
    case StealUp(t, r) => Expired(t, r)
    case StealMode(t, r) => Signalling(t, r, owner)
    case StealOwner(t, r) => Signalling(t, r, owner)
    case ExpiryExit(t, r, v) => if v != 0 then Signalling(t, r, v) else Waiting(t, r + 1)
    case InSignal(t, r, v) => Signalling(t, r, v)
    case _ => Idle
  }

  /** `al` with the first k writes of the acquiring section done. */
  function Granted(al: Fields, p: Pid, t: LockType, k: nat): Fields {
    al.(mode := if k > 0 then t else al.mode,
        inRegion := if k > 1 then true else al.inRegion,
        toFree := if k > 2 then false else al.toFree,
        owner := if k > 3 then p else al.owner)
  }

  /** `fl` with the writes from the k-th on done. */
  function Unlocked(fl: Fields, k: nat): Fields {
    fl.(owner := if k <= 1 then NO_OWNER else fl.owner,
        toFree := if k <= 2 then false else fl.toFree,
        mode := if k <= 3 then NoLock else fl.mode,
        inRegion := if k <= 4 then false else fl.inRegion)
  }

  /** How the fields and owner histories of the two systems correspond while p, at pc, holds the spinlock. */
  predicate SectionRel(f: FState, a: State, p: Pid, pc: FPC) {
    match pc
    case TestMark(t) => f.lock == a.lock && f.owners == a.owners && t == ShortLock && f.lock.owner == p
    case Grant(t, _, k) =>
      && k <= 5
      && (if k <= 4 then f.lock == Granted(a.lock, p, t, k) else f.lock == a.lock)
      && (if k == 4 then f.owners == a.owners + [p] else f.owners == a.owners)
    case ExpiryMark(_, _) =>
      f.lock == a.lock && f.owners == a.owners && Overdue(f.lock, f.clock) && f.lock.inRegion
    case StealUp(_, _) =>
      f.lock == a.lock && f.owners == a.owners && Overdue(f.lock, f.clock) && !f.lock.inRegion
    case StealMode(_, _) =>
      a.lock == f.lock.(mode := NoLock, owner := NO_OWNER) && a.owners == f.owners + [NO_OWNER] && f.lock.owner > 0
    case StealOwner(_, _) =>
      && a.lock == f.lock.(owner := NO_OWNER) && f.lock.mode == NoLock
      && a.owners == f.owners + [NO_OWNER] && f.lock.owner > 0
    case Unlocking(t, k) =>
      && k <= 5
      && (if k == 0 then
            f.lock == a.lock && (if t == ShortLock then LeaveFrees(f.lock) else f.lock.owner == p)
          else if k <= 4 then a.lock == Unlocked(f.lock, k)
          else f.lock == a.lock)
      && a.owners == (if k == 1 then f.owners + [NO_OWNER] else f.owners)
    case SimpleLeave => f.lock == a.lock && f.owners == a.owners && !LeaveFrees(f.lock)
    case _ => f.lock == a.lock && f.owners == a.owners
  }

  predicate LockRel(f: FState, a: State) {
    && a.clock == f.clock
    && f.lock.count == a.lock.count
    && (f.spin == 0 ==> f.lock == a.lock && f.owners == a.owners)
    && (f.spin != 0 ==> f.spin in f.pcs && Holds(f.pcs[f.spin]) && SectionRel(f, a, f.spin, f.pcs[f.spin]))
  }

  /** Committed, but the call has not returned to the client yet. */
  predicate EnterPending(pc: FPC) {
    pc == TestExit(ShortLock, true) || (pc.Grant? && pc.t == ShortLock && pc.k == 5)
  }

  /** Leave was called, but its section has not taken effect yet. */
  predicate LeavePending(pc: FPC) {
    || ((pc.UnlockWant? || pc.UnlockTest?) && pc.t == ShortLock)
    || (pc.Unlocking? && pc.t == ShortLock && pc.k == 0)
    || pc.SimpleLeave?
  }

  predicate TaskRel(f: FState, a: State, q: Pid)
    requires q in f.pcs && q in a.pcs
  {
    var pc := f.pcs[q];
    && a.pcs[q] == AbsPC(pc, f.lock.owner)
    && (Holds(pc) ==> f.spin == q)
    && (pc.TestWant? || pc.TestCompare? || pc.TestMark? || pc.TestExit? || pc.UnlockWant? || pc.UnlockTest? || pc.Unlocking?
        ==> pc.t != NoLock)
    && (if EnterPending(pc) then a.inside[q] == f.inside[q] + 1
        else if LeavePending(pc) then
          a.inside[q] == f.inside[q] + 1 || (a.inside[q] == 0 && f.inside[q] == 0)
        else a.inside[q] == f.inside[q])
  }

  ghost predicate Rel(f: FState, a: State) {
    && Inv(a)
    && a.pcs.Keys == f.pcs.Keys
    && LockRel(f, a)
    && a.accesses == f.accesses
    && (forall q :: q in f.pcs ==> TaskRel(f, a, q))
  }

  lemma RelInit(f: FState, a: State)
    requires FInit(f)
    requires a == Start(f)
    ensures Init(a) && Rel(f, a)
  {
    InvInit(a);
  }

  /** What one statement of task p has to establish: the fields correspond again, and so does p itself. */
  ghost predicate Matched(f: FState, l: FLabel, a: State)
    requires FEnabled(f, l) && !l.FTick?
  {
    var la := AbsLabel(f, l);
    && (la.Some? ==> Enabled(a, la.value))
    && l.p in FNext(f, l).pcs && l.p in Simulate(a, la).pcs
    && LockRel(FNext(f, l), Simulate(a, la))
    && TaskRel(FNext(f, l), Simulate(a, la), l.p)
  }

  /** What is known about the task that moves. */
  ghost predicate Ready(f: FState, l: FLabel, a: State) {
    && !l.FTick? && FEnabled(f, l)
    && l.p in a.pcs && TaskRel(f, a, l.p)
    && LockRel(f, a) && FieldsOk(a.lock, a.clock)
  }

  /** Somebody else holds the spinlock: a granted wait changes the same count on both sides, and nothing else changes. */
  lemma HolderUndisturbed(f: FState, a: State, f': FState, a': State)
    requires LockRel(f, a) && f.spin != 0
    requires f'.spin == f.spin && f.spin in f'.pcs && f'.pcs[f.spin] == f.pcs[f.spin]
    requires f'.clock == a'.clock >= f.clock && f'.owners == f.owners && a'.owners == a.owners
    requires f'.lock == f.lock.(count := f'.lock.count) && a'.lock == a.lock.(count := f'.lock.count)
    ensures LockRel(f', a')
  {
  }

  /** A statement outside the spinlock. */
  predicate OutsideSpinlock(f: FState, l: FLabel) {
    !l.FTick? && FEnabled(f, l) && !Wants(f.pcs[l.p]) && !Holds(f.pcs[l.p])
  }

  lemma OutsideEnabled(f: FState, l: FLabel, a: State)
    requires Ready(f, l, a) && OutsideSpinlock(f, l)
    ensures var la := AbsLabel(f, l); la.Some? ==> Enabled(a, la.value)
  {
  }

  lemma CallTask(f: FState, l: FLabel, a: State)
    requires l.CallEnter? || l.CallLongLock? || l.CallLeave? || l.CallLongUnlock?
    requires FEnabled(f, l) && l.p in a.pcs && TaskRel(f, a, l.p)
    ensures l.p in FNext(f, l).pcs && TaskRel(FNext(f, l), a, l.p)
  {
  }

  lemma WaitTask(f: FState, l: FLabel, a: State)
    requires l.FDown? || l.FExpire? || l.FAccess?
    requires FEnabled(f, l) && l.p in a.pcs && TaskRel(f, a, l.p) && Enabled(a, AbsLabel(f, l).value)
    ensures var a' := Next(a, AbsLabel(f, l).value);
      l.p in FNext(f, l).pcs && l.p in a'.pcs && TaskRel(FNext(f, l), a', l.p)
  {
  }

  lemma LoopTask(f: FState, p: Pid, a: State)
    requires OutsideSpinlock(f, Run(p)) && p in a.pcs && TaskRel(f, a, p) && Enabled(a, AbsLabel(f, Run(p)).value)
    ensures var a' := Next(a, AbsLabel(f, Run(p)).value);
      p in FNext(f, Run(p)).pcs && p in a'.pcs && TaskRel(FNext(f, Run(p)), a', p)
  {
  }

  lemma OutsideTask(f: FState, l: FLabel, a: State)
    requires OutsideSpinlock(f, l) && l.p in a.pcs && TaskRel(f, a, l.p)
    requires var la := AbsLabel(f, l); la.Some? ==> Enabled(a, la.value)
    ensures l.p in FNext(f, l).pcs && l.p in Simulate(a, AbsLabel(f, l)).pcs
    ensures TaskRel(FNext(f, l), Simulate(a, AbsLabel(f, l)), l.p)
  {
    if l.Run? {
      LoopTask(f, l.p, a);
    } else if l.FDown? || l.FExpire? || l.FAccess? {
      WaitTask(f, l, a);
    } else {
      CallTask(f, l, a);
    }
  }

  lemma OutsideEffect(f: FState, l: FLabel, a: State)
    requires Ready(f, l, a) && OutsideSpinlock(f, l)
    requires var la := AbsLabel(f, l); la.Some? ==> Enabled(a, la.value)
    ensures var f', a' := FNext(f, l), Simulate(a, AbsLabel(f, l));
      && f'.spin == f.spin && f'.clock == f.clock && a'.clock == a.clock
      && f'.owners == f.owners && a'.owners == a.owners
      && f'.lock == f.lock.(count := f'.lock.count) && a'.lock == a.lock.(count := f'.lock.count)
      && forall q :: q in f.pcs && q != l.p ==> q in f'.pcs && f'.pcs[q] == f.pcs[q]
  {
  }

  lemma MatchOutside(f: FState, l: FLabel, a: State)
    requires Ready(f, l, a) && OutsideSpinlock(f, l)
    ensures Matched(f, l, a)
  {
    OutsideEnabled(f, l, a);
    OutsideTask(f, l, a);
    OutsideEffect(f, l, a);
    if f.spin != 0 {
      HolderUndisturbed(f, a, FNext(f, l), Simulate(a, AbsLabel(f, l)));
    }
  }

  lemma MatchSpinLock(f: FState, p: Pid, a: State)
    requires Ready(f, Run(p), a) && Wants(f.pcs[p])
    ensures Matched(f, Run(p), a)
  {
  }

  lemma MatchTestCompare(f: FState, p: Pid, a: State)
    requires Ready(f, Run(p), a) && f.pcs[p].TestCompare?
    ensures Matched(f, Run(p), a)
  {
  }

  lemma MatchTestMark(f: FState, p: Pid, a: State)
    requires Ready(f, Run(p), a) && f.pcs[p].TestMark?
    ensures Matched(f, Run(p), a)
  {
  }

  lemma MatchTestExit(f: FState, p: Pid, a: State)
    requires Ready(f, Run(p), a) && f.pcs[p].TestExit?
    ensures Matched(f, Run(p), a)
  {
  }

  lemma MatchGrantWrite(f: FState, p: Pid, a: State)
    requires Ready(f, Run(p), a) && f.pcs[p].Grant? && f.pcs[p].k < 4
    ensures Matched(f, Run(p), a)
  {
  }

  lemma MatchGrantEnd(f: FState, p: Pid, a: State)
    requires Ready(f, Run(p), a) && f.pcs[p].Grant? && f.pcs[p].k >= 4
    ensures Matched(f, Run(p), a)
  {
  }

  lemma MatchExpiryTest(f: FState, p: Pid, a: State)
    requires Ready(f, Run(p), a) && f.pcs[p].ExpiryTest?
    ensures Matched(f, Run(p), a)
  {
  }

  lemma MatchExpiryMark(f: FState, p: Pid, a: State)
    requires Ready(f, Run(p), a) && f.pcs[p].ExpiryMark?
    ensures Matched(f, Run(p), a)
  {
  }

  lemma MatchExpiryExit(f: FState, p: Pid, a: State)
    requires Ready(f, Run(p), a) && f.pcs[p].ExpiryExit?
    ensures Matched(f, Run(p), a)
  {
  }

  lemma MatchStealUp(f: FState, p: Pid, a: State)
    requires Ready(f, Run(p), a) && f.pcs[p].StealUp?
    ensures Matched(f, Run(p), a)
  {
  }

  lemma MatchStealWrite(f: FState, p: Pid, a: State)
    requires Ready(f, Run(p), a) && (f.pcs[p].StealMode? || f.pcs[p].StealOwner?)
    ensures Matched(f, Run(p), a)
  {
  }

  lemma MatchUnlockTest(f: FState, p: Pid, a: State)
    requires Ready(f, Run(p), a) && f.pcs[p].UnlockTest?
    ensures Matched(f, Run(p), a)
  {
  }

  lemma MatchSimpleLeave(f: FState, p: Pid, a: State)
    requires Ready(f, Run(p), a) && f.pcs[p].SimpleLeave?
    ensures Matched(f, Run(p), a)
  {
  }

  lemma MatchUnlockUp(f: FState, p: Pid, a: State)
    requires Ready(f, Run(p), a) && f.pcs[p].Unlocking? && f.pcs[p].k == 0
    ensures Matched(f, Run(p), a)
  {
  }

  lemma MatchUnlockWrite(f: FState, p: Pid, a: State)
    requires Ready(f, Run(p), a) && f.pcs[p].Unlocking? && 0 < f.pcs[p].k < 5
    ensures Matched(f, Run(p), a)
  {
    hide Enabled, FieldsOk, Overdue;
  }

  lemma MatchUnlockExit(f: FState, p: Pid, a: State)
    requires Ready(f, Run(p), a) && f.pcs[p].Unlocking? && f.pcs[p].k >= 5
    ensures Matched(f, Run(p), a)
  {
    hide Enabled, FieldsOk, Overdue, LeaveFrees;
  }

  lemma MatchStep(f: FState, l: FLabel, a: State)
    requires Ready(f, l, a)
    ensures Matched(f, l, a)
  {
    var p, pc := l.p, f.pcs[l.p];
    if OutsideSpinlock(f, l) {
      MatchOutside(f, l, a);
    } else {
      hide Ready, Matched;
      match pc
      case TestCompare(_) => MatchTestCompare(f, p, a);
      case TestMark(_) => MatchTestMark(f, p, a);
      case TestExit(_, _) => MatchTestExit(f, p, a);
      case Grant(_, _, k) => if k < 4 { MatchGrantWrite(f, p, a); } else { MatchGrantEnd(f, p, a); }
      case ExpiryTest(_, _) => MatchExpiryTest(f, p, a);
      case ExpiryMark(_, _) => MatchExpiryMark(f, p, a);
      case ExpiryExit(_, _, _) => MatchExpiryExit(f, p, a);
      case StealUp(_, _) => MatchStealUp(f, p, a);
      case StealMode(_, _) => MatchStealWrite(f, p, a);
      case StealOwner(_, _) => MatchStealWrite(f, p, a);
      case UnlockTest(_) => MatchUnlockTest(f, p, a);
      case SimpleLeave => MatchSimpleLeave(f, p, a);
      case Unlocking(_, k) =>
        if k == 0 { MatchUnlockUp(f, p, a); } else if k < 5 { MatchUnlockWrite(f, p, a); } else { MatchUnlockExit(f, p, a); }
      case _ => MatchSpinLock(f, p, a);
    }
  }

  /** A statement of another task leaves q alone, and leaves the owner field alone while q holds the spinlock. */
  lemma FineFrame(f: FState, l: FLabel, q: Pid)
    requires FEnabled(f, l) && q in f.pcs && (l.FTick? || l.p != q)
    ensures q in FNext(f, l).pcs && FNext(f, l).pcs[q] == f.pcs[q] && FNext(f, l).inside[q] == f.inside[q]
  {
    if l.Run? {
      RunFrame(f, l.p, q);
    }
  }

  lemma RunFrame(f: FState, p: Pid, q: Pid)
    requires FEnabled(f, Run(p)) && q in f.pcs && p != q
    ensures var f' := RunStep(f, p); q in f'.pcs && f'.pcs[q] == f.pcs[q] && f'.inside[q] == f.inside[q]
  {
  }

  lemma FineOwnerFrame(f: FState, l: FLabel)
    requires FEnabled(f, l) && f.spin != 0 && (!l.FTick? ==> !Holds(f.pcs[l.p]))
    ensures FNext(f, l).spin == f.spin && FNext(f, l).lock.owner == f.lock.owner
  {
  }

  lemma CoarseFrame(a: State, la: Option<Label>, q: Pid)
    requires la.Some? ==> Enabled(a, la.value)
    requires q in a.pcs && (la.Some? ==> !LockRuns.Moves(la.value, q))
    ensures Simulate(a, la).pcs.Keys == a.pcs.Keys
    ensures Simulate(a, la).pcs[q] == a.pcs[q] && Simulate(a, la).inside[q] == a.inside[q]
  {
  }

  lemma AbsLabelTask(f: FState, l: FLabel)
    requires FEnabled(f, l)
    ensures var la := AbsLabel(f, l); la.Some? && !la.value.Tick? ==> !l.FTick? && la.value.p == l.p
  {
  }

  lemma SimOther(f: FState, l: FLabel, a: State, q: Pid)
    requires Rel(f, a) && FEnabled(f, l) && q in f.pcs && (l.FTick? || l.p != q)
    requires var la := AbsLabel(f, l); la.Some? ==> Enabled(a, la.value)
    ensures q in FNext(f, l).pcs && q in Simulate(a, AbsLabel(f, l)).pcs
    ensures TaskRel(FNext(f, l), Simulate(a, AbsLabel(f, l)), q)
  {
    assert TaskRel(f, a, q);
    if !l.FTick? {
      assert TaskRel(f, a, l.p);
    }
    FineFrame(f, l, q);
    if f.spin == q && (!l.FTick? ==> !Holds(f.pcs[l.p])) {
      FineOwnerFrame(f, l);
    }
    AbsLabelTask(f, l);
    CoarseFrame(a, AbsLabel(f, l), q);
    hide FEnabled, FNext, Enabled, Next, AbsLabel, Inv, LockRel;
  }

  lemma SameAccesses(f: FState, l: FLabel, a: State)
    requires FEnabled(f, l) && a.accesses == f.accesses
    requires var la := AbsLabel(f, l); la.Some? ==> Enabled(a, la.value)
    ensures Simulate(a, AbsLabel(f, l)).accesses == FNext(f, l).accesses
  {
  }

  /** Forward simulation: each statement is the section it completes, or no step at all. */
  lemma SimStep(f: FState, l: FLabel, a: State)
    requires Rel(f, a) && FEnabled(f, l)
    ensures var la := AbsLabel(f, l); la.Some? ==> Enabled(a, la.value)
    ensures Rel(FNext(f, l), Simulate(a, AbsLabel(f, l)))
  {
    hide FEnabled, FNext, Enabled, Next, AbsLabel, Simulate, Inv, LockRel, TaskRel;
    LockMatches(f, l, a);
    var la := AbsLabel(f, l);
    StepKeepsInv(a, la);
    KeysKept(f, l, a, la);
    SameAccesses(f, l, a);
    var f', a' := FNext(f, l), Simulate(a, la);
    forall q | q in f'.pcs ensures TaskRel(f', a', q) {
      if l.FTick? || l.p != q {
        SimOther(f, l, a, q);
      }
    }
  }

  lemma StepKeepsInv(a: State, la: Option<Label>)
    requires Inv(a) && (la.Some? ==> Enabled(a, la.value))
    ensures Inv(Simulate(a, la))
  {
    hide Inv, Enabled, Next;
    if la.Some? {
      InvStep(a, la.value);
    }
  }

  /** The fields correspond after the step, and so does the task that moved. */
  lemma LockMatches(f: FState, l: FLabel, a: State)
    requires Rel(f, a) && FEnabled(f, l)
    ensures var la := AbsLabel(f, l);
      && (la.Some? ==> Enabled(a, la.value))
      && LockRel(FNext(f, l), Simulate(a, la))
      && (!l.FTick? ==> l.p in Simulate(a, la).pcs && l.p in FNext(f, l).pcs && TaskRel(FNext(f, l), Simulate(a, la), l.p))
  {
    if l.FTick? {
      TickMatches(f, a);
    } else {
      assert l.p in f.pcs && TaskRel(f, a, l.p);
      hide FNext, Enabled, Next, AbsLabel, Simulate, LockRel, TaskRel;
      MatchStep(f, l, a);
    }
  }

  lemma TickMatches(f: FState, a: State)
    requires LockRel(f, a)
    ensures LockRel(FNext(f, FTick), Next(a, Tick))
  {
  }

  lemma FineKeys(f: FState, l: FLabel)
    requires FEnabled(f, l)
    ensures FNext(f, l).pcs.Keys == f.pcs.Keys
  {
    if l.Run? {
      RunKeys(f, l.p);
    }
  }

  lemma RunKeys(f: FState, p: Pid)
    requires FEnabled(f, Run(p))
    ensures RunStep(f, p).pcs.Keys == f.pcs.Keys
  {
    assert f.pcs.Keys == f.pcs.Keys + {p};
  }

  lemma KeysKept(f: FState, l: FLabel, a: State, la: Option<Label>)
    requires FEnabled(f, l) && (la.Some? ==> Enabled(a, la.value))
    ensures FNext(f, l).pcs.Keys == f.pcs.Keys && Simulate(a, la).pcs.Keys == a.pcs.Keys
  {
    FineKeys(f, l);
  }

  // ----- whole runs -----

  /** The sections that the statements of a run complete, in order. */
  ghost function Sections(fs: seq<FState>, ls: seq<FLabel>, n: nat): seq<Label>
    requires IsFineRun(fs, ls) && n <= |ls|
  {
    if n == 0 then []
    else
      var la := AbsLabel(fs[n - 1], ls[n - 1]);
      Sections(fs, ls, n - 1) + (if la.Some? then [la.value] else [])
  }

  /** The values written to the owner field, up to the write that a section in progress still owes or has made early. */
  predicate SameOwners(f: FState, a: State) {
    || f.owners == a.owners
    || (f.spin != 0 && f.owners + [NO_OWNER] == a.owners)
    || (f.spin != 0 && f.owners == a.owners + [f.spin])
  }

  /** The section-level state that a statement-level run starts from. */
  function Start(f: FState): State {
    State(f.lock, f.clock, map p | p in f.pcs :: Idle, multiset{}, [], [])
  }

  lemma FineStepAt(fs: seq<FState>, ls: seq<FLabel>, n: nat)
    requires IsFineRun(fs, ls) && n < |ls|
    ensures FEnabled(fs[n], ls[n]) && fs[n + 1] == FNext(fs[n], ls[n])
  {
  }

  lemma SectionsNext(fs: seq<FState>, ls: seq<FLabel>, n: nat)
    requires IsFineRun(fs, ls) && n < |ls|
    ensures var la := AbsLabel(fs[n], ls[n]);
      Sections(fs, ls, n + 1) == if la.Some? then Sections(fs, ls, n) + [la.value] else Sections(fs, ls, n)
  {
    hide AbsLabel, FNext, FInit;
    assert Sections(fs, ls, n) + [] == Sections(fs, ls, n);
  }

  /** The section-level run grows by the section that statement n completes, if any. */
  lemma RunGrows(fs: seq<FState>, ls: seq<FLabel>, n: nat, ss: seq<State>) returns (ss': seq<State>)
    requires IsFineRun(fs, ls) && n < |ls|
    requires LockRuns.IsRun(ss, Sections(fs, ls, n)) && Rel(fs[n], ss[|ss| - 1])
    ensures LockRuns.IsRun(ss', Sections(fs, ls, n + 1)) && Rel(fs[n + 1], ss'[|ss'| - 1])
    ensures var la := AbsLabel(fs[n], ls[n]);
      && (la.Some? ==> Enabled(ss[|ss| - 1], la.value))
      && ss' == (if la.None? then ss else ss + [Next(ss[|ss| - 1], la.value)])
      && ss'[|ss'| - 1] == Simulate(ss[|ss| - 1], la)
  {
    FineStepAt(fs, ls, n);
    hide IsFineRun, FEnabled, FNext, Rel, Enabled, Next, AbsLabel, LockRuns.IsRun;
    var la := AbsLabel(fs[n], ls[n]);
    var labels := Sections(fs, ls, n);
    SectionsNext(fs, ls, n);
    hide Sections;
    SimStep(fs[n], ls[n], ss[|ss| - 1]);
    ss' := ss;
    if la.Some? {
      ss' := AppendStep(ss, labels, la.value);
    }
  }

  lemma {:induction false} RunCorresponds(fs: seq<FState>, ls: seq<FLabel>, n: nat) returns (ss: seq<State>)
    requires IsFineRun(fs, ls) && n <= |ls|
    ensures LockRuns.IsRun(ss, Sections(fs, ls, n))
    ensures Rel(fs[n], ss[|ss| - 1])
  {
    hide FEnabled, FNext, Rel, Enabled, Next;
    if n == 0 {
      RelInit(fs[0], Start(fs[0]));
      ss := [Start(fs[0])];
    } else {
      ss := RunCorresponds(fs, ls, n - 1);
      hide LockRuns.IsRun, Sections;
      ss := RunGrows(fs, ls, n - 1, ss);
    }
  }

  /**
   Every statement-level run has a section-level run over the same sections with corresponding final
   states: same clock and semaphore, same sequence of owners, and the same fields whenever no task is
   inside the spinlock.
   */
  lemma FineRunRefines(fs: seq<FState>, ls: seq<FLabel>, n: nat) returns (ss: seq<State>)
    requires IsFineRun(fs, ls) && n <= |ls|
    ensures LockRuns.IsRun(ss, Sections(fs, ls, n))
    ensures var a := ss[|ss| - 1];
      && a.clock == fs[n].clock && a.lock.count == fs[n].lock.count
      && SameOwners(fs[n], a) && a.accesses == fs[n].accesses
      && (fs[n].spin == 0 ==> a.lock == fs[n].lock && a.owners == fs[n].owners)
  {
    ss := RunCorresponds(fs, ls, n);
    RelOwners(fs[n], ss[|ss| - 1]);
  }

  lemma AppendStep(ss: seq<State>, ls: seq<Label>, l: Label) returns (ss': seq<State>)
    requires LockRuns.IsRun(ss, ls) && Enabled(ss[|ss| - 1], l)
    ensures LockRuns.IsRun(ss', ls + [l]) && ss'[|ss'| - 1] == Next(ss[|ss| - 1], l)
    ensures ss' == ss + [Next(ss[|ss| - 1], l)]
  {
    ss' := ss + [Next(ss[|ss| - 1], l)];
  }

  lemma RelOwners(f: FState, a: State)
    requires LockRel(f, a)
    ensures SameOwners(f, a)
    ensures f.spin == 0 ==> a.lock == f.lock && a.owners == f.owners
  {
  }

  // ----- the clients' discipline survives the mapping -----

  /** What the pending calls of a disciplined client imply about the section-level history. */
  predicate CallRel(f: FState, a: State, q: Pid)
    requires q in f.pcs
  {
    var pc := f.pcs[q];
    && (LeavePending(pc) ==> a.inside[q] > 0)
    && (pc.TestWant? || pc.TestCompare? || pc.TestMark? ==> a.inside[q] == 0)
    && ((pc.UnlockWant? || pc.UnlockTest?) && pc.t != ShortLock ==> a.inside[q] == 0)
    && (pc.Unlocking? && pc.t != ShortLock && pc.k == 0 ==> a.inside[q] == 0)
  }

  ghost predicate DisciplineRel(f: FState, a: State) {
    forall q :: q in f.pcs ==> CallRel(f, a, q)
  }

  ghost predicate CallMatched(f: FState, l: FLabel, a: State)
    requires !l.FTick? && FEnabled(f, l)
    requires var la := AbsLabel(f, l); la.Some? ==> Enabled(a, la.value)
  {
    var la := AbsLabel(f, l);
    && (la.Some? ==> Disciplined(a, la.value))
    && l.p in FNext(f, l).pcs && CallRel(FNext(f, l), Simulate(a, la), l.p)
  }

  lemma CallStarts(f: FState, l: FLabel, a: State)
    requires !l.FTick? && !l.Run? && FEnabled(f, l) && FDisciplined(f, l)
    requires l.p in a.pcs && TaskRel(f, a, l.p)
    requires var la := AbsLabel(f, l); la.Some? ==> Enabled(a, la.value)
    ensures CallMatched(f, l, a)
  {
  }

  lemma CallUnlocks(f: FState, p: Pid, a: State)
    requires FEnabled(f, Run(p)) && CallRel(f, a, p)
    requires f.pcs[p].UnlockWant? || f.pcs[p].UnlockTest? || f.pcs[p].Unlocking? || f.pcs[p].SimpleLeave?
    requires var la := AbsLabel(f, Run(p)); la.Some? ==> Enabled(a, la.value)
    ensures CallMatched(f, Run(p), a)
  {
  }

  lemma CallTests(f: FState, p: Pid, a: State)
    requires FEnabled(f, Run(p)) && CallRel(f, a, p)
    requires f.pcs[p].TestWant? || f.pcs[p].TestCompare? || f.pcs[p].TestMark? || f.pcs[p].TestExit?
    requires var la := AbsLabel(f, Run(p)); la.Some? ==> Enabled(a, la.value)
    ensures CallMatched(f, Run(p), a)
  {
  }

  lemma CallContinues(f: FState, p: Pid, a: State)
    requires FEnabled(f, Run(p)) && CallRel(f, a, p)
    requires !f.pcs[p].UnlockWant? && !f.pcs[p].UnlockTest? && !f.pcs[p].Unlocking? && !f.pcs[p].SimpleLeave?
    requires !f.pcs[p].TestWant? && !f.pcs[p].TestCompare? && !f.pcs[p].TestMark? && !f.pcs[p].TestExit?
    requires var la := AbsLabel(f, Run(p)); la.Some? ==> Enabled(a, la.value)
    ensures CallMatched(f, Run(p), a)
  {
  }

  lemma DisciplineStep(f: FState, l: FLabel, a: State)
    requires Rel(f, a) && DisciplineRel(f, a) && FEnabled(f, l) && FDisciplined(f, l)
    requires var la := AbsLabel(f, l); la.Some? ==> Enabled(a, la.value)
    ensures var la := AbsLabel(f, l); la.Some? ==> Disciplined(a, la.value)
    ensures DisciplineRel(FNext(f, l), Simulate(a, AbsLabel(f, l)))
  {
    var la := AbsLabel(f, l);
    if !l.FTick? {
      assert TaskRel(f, a, l.p) && CallRel(f, a, l.p);
      if !l.Run? {
        CallStarts(f, l, a);
      } else if f.pcs[l.p].UnlockWant? || f.pcs[l.p].UnlockTest? || f.pcs[l.p].Unlocking? || f.pcs[l.p].SimpleLeave? {
        CallUnlocks(f, l.p, a);
      } else if f.pcs[l.p].TestWant? || f.pcs[l.p].TestCompare? || f.pcs[l.p].TestMark? || f.pcs[l.p].TestExit? {
        CallTests(f, l.p, a);
      } else {
        CallContinues(f, l.p, a);
      }
    }
    KeysKept(f, l, a, la);
    AbsLabelTask(f, l);
    forall q | q in FNext(f, l).pcs ensures CallRel(FNext(f, l), Simulate(a, la), q) {
      if l.FTick? || l.p != q {
        assert CallRel(f, a, q);
        FineFrame(f, l, q);
        CoarseFrame(a, la, q);
      }
    }
  }

  lemma DisciplineGrows(ss: seq<State>, ls: seq<Label>, l: Label)
    requires LockRuns.IsDisciplinedRun(ss, ls) && Enabled(ss[|ss| - 1], l) && Disciplined(ss[|ss| - 1], l)
    ensures LockRuns.IsDisciplinedRun(ss + [Next(ss[|ss| - 1], l)], ls + [l])
  {
    hide Enabled, Next, Disciplined;
    var ss' := AppendStep(ss, ls, l);
  }

  /** The section-level run stays disciplined when statement n is. */
  lemma DisciplinedGrows(fs: seq<FState>, ls: seq<FLabel>, n: nat, prev: seq<State>) returns (ss: seq<State>)
    requires IsFineRun(fs, ls) && n < |ls| && FDisciplined(fs[n], ls[n])
    requires LockRuns.IsRun(prev, Sections(fs, ls, n)) && LockRuns.IsDisciplinedRun(prev, Sections(fs, ls, n))
    requires Rel(fs[n], prev[|prev| - 1]) && DisciplineRel(fs[n], prev[|prev| - 1])
    ensures LockRuns.IsRun(ss, Sections(fs, ls, n + 1)) && LockRuns.IsDisciplinedRun(ss, Sections(fs, ls, n + 1))
    ensures Rel(fs[n + 1], ss[|ss| - 1]) && DisciplineRel(fs[n + 1], ss[|ss| - 1])
  {
    hide FEnabled, FNext, FDisciplined, Rel, DisciplineRel, Enabled, Next, Disciplined, AbsLabel, LockRuns.IsDisciplinedRun;
    ss := RunGrows(fs, ls, n, prev);
    FineStepAt(fs, ls, n);
    hide IsFineRun, LockRuns.IsRun;
    DisciplineStep(fs[n], ls[n], prev[|prev| - 1]);
    SectionsNext(fs, ls, n);
    var la := AbsLabel(fs[n], ls[n]);
    if la.Some? {
      DisciplineGrows(prev, Sections(fs, ls, n), la.value);
    }
  }

  lemma StartCorresponds(f: FState)
    requires FInit(f)
    ensures Rel(f, Start(f)) && DisciplineRel(f, Start(f)) && LockRuns.IsDisciplinedRun([Start(f)], [])
  {
    RelInit(f, Start(f));
  }

  lemma {:induction false} DisciplinedRunRefines(fs: seq<FState>, ls: seq<FLabel>, n: nat) returns (ss: seq<State>)
    requires IsFineRun(fs, ls) && n <= |ls|
    requires forall i {:trigger ls[i]} :: 0 <= i < n ==> FDisciplined(fs[i], ls[i])
    ensures LockRuns.IsRun(ss, Sections(fs, ls, n))
    ensures LockRuns.IsDisciplinedRun(ss, Sections(fs, ls, n))
    ensures Rel(fs[n], ss[|ss| - 1]) && DisciplineRel(fs[n], ss[|ss| - 1])
  {
    hide FEnabled, FNext, FDisciplined, Rel, DisciplineRel, LockRuns.IsDisciplinedRun, LockRuns.IsRun, Sections, IsFineRun;
    if n == 0 {
      ss := StartRefines(fs, ls);
    } else {
      ss := DisciplinedRunRefines(fs, ls, n - 1);
      ss := DisciplinedGrows(fs, ls, n - 1, ss);
    }
  }

  lemma StartRefines(fs: seq<FState>, ls: seq<FLabel>) returns (ss: seq<State>)
    requires IsFineRun(fs, ls)
    ensures LockRuns.IsRun(ss, Sections(fs, ls, 0)) && LockRuns.IsDisciplinedRun(ss, Sections(fs, ls, 0))
    ensures Rel(fs[0], ss[|ss| - 1]) && DisciplineRel(fs[0], ss[|ss| - 1])
  {
    hide FEnabled, FNext, Rel, DisciplineRel, Enabled, Next, Disciplined;
    StartCorresponds(fs[0]);
    ss := [Start(fs[0])];
  }

  /** Mutual exclusion at the grain of single statements. */
  lemma FineMutualExclusion(fs: seq<FState>, ls: seq<FLabel>, n: nat, p: Pid, q: Pid)
    requires IsFineRun(fs, ls) && n <= |ls|
    requires forall i {:trigger ls[i]} :: 0 <= i < n ==> FDisciplined(fs[i], ls[i])
    requires p in fs[n].pcs && q in fs[n].pcs && fs[n].inside[p] > 0 && fs[n].inside[q] > 0
    ensures p == q && fs[n].inside[p] == 1
  {
    var ss := DisciplinedRunRefines(fs, ls, n);
    var a := ss[|ss| - 1];
    assert TaskRel(fs[n], a, p) && TaskRel(fs[n], a, q);
    LockRuns.MutualExclusion(ss, Sections(fs, ls, n), |ss| - 1, p, q);
  }

  /** The accesses that p makes in statements i to j - 1, in its program order. */
  ghost function FineAccesses(ls: seq<FLabel>, p: Pid, i: nat, j: nat): seq<Touch>
    requires i <= j <= |ls|
    decreases j
  {
    if i == j then []
    else
      var l := ls[j - 1];
      FineAccesses(ls, p, i, j - 1) + (if l.FAccess? && l.p == p then [Touch(p, l.reg)] else [])
  }

  lemma AccessStep(f: FState, l: FLabel)
    requires FEnabled(f, l)
    ensures FNext(f, l).accesses == f.accesses + (if l.FAccess? then [Touch(l.p, l.reg)] else [])
    ensures l.FAccess? ==> l.p in f.pcs && f.inside[l.p] > 0
  {
  }

  /** Between the return of its Enter and its Leave, a task's accesses stand in the global history without a gap. */
  lemma {:induction false} FineAccessesContiguous(fs: seq<FState>, ls: seq<FLabel>, i: nat, j: nat, p: Pid)
    requires IsFineRun(fs, ls) && i <= j <= |ls|
    requires forall m {:trigger ls[m]} :: 0 <= m < j ==> FDisciplined(fs[m], ls[m])
    requires forall k :: i <= k <= j ==> p in fs[k].pcs && fs[k].inside[p] > 0
    ensures fs[j].accesses == fs[i].accesses + FineAccesses(ls, p, i, j)
    decreases j
  {
    hide FEnabled, FNext, FDisciplined;
    if i < j {
      FineAccessesContiguous(fs, ls, i, j - 1, p);
      FineStepAt(fs, ls, j - 1);
      AccessStep(fs[j - 1], ls[j - 1]);
      var l := ls[j - 1];
      if l.FAccess? {
        FineMutualExclusion(fs, ls, j - 1, p, l.p);
      }
    }
  }
}
