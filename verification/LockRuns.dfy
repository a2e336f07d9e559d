/**
 What the lock guarantees over whole runs: semaphore conservation, mutual exclusion, ownership
 stability, no early revocation, exactly one report per involuntary loss, bounded waiting, progress
 of revocation, and contiguity of the hardware accesses made inside one region.
 */
module LockRuns {
  import opened LockSections
  import opened LockProtocol

  ghost predicate IsRun(ss: seq<State>, ls: seq<Label>) {
    && |ss| == |ls| + 1
    && Init(ss[0])
    && forall i {:trigger ls[i]} :: 0 <= i < |ls| ==> Enabled(ss[i], ls[i]) && ss[i + 1] == Next(ss[i], ls[i])
  }

  ghost predicate IsDisciplinedRun(ss: seq<State>, ls: seq<Label>) {
    IsRun(ss, ls) && forall i {:trigger ls[i]} :: 0 <= i < |ls| ==> Disciplined(ss[i], ls[i])
  }

  // ----- conservation -----

  /** In every state of every run exactly one permit exists: in the semaphore, in flight, or as the held lock. */
  lemma {:induction false} SemaphoreConserved(ss: seq<State>, ls: seq<Label>, n: nat)
    requires IsRun(ss, ls) && n < |ss|
    ensures Inv(ss[n])
    ensures ss[n].lock.count + |Holders(ss[n].pcs)| + (if ss[n].lock.mode != NoLock then 1 else 0) == 1
    ensures ss[n].lock.owner == NO_OWNER <==> ss[n].lock.mode == NoLock
    ensures ss[n].lock.toFree ==> ss[n].lock.mode == LongLock && ss[n].lock.inRegion
    ensures ss[n].lock.timeout == ss[0].lock.timeout
  {
    if n == 0 {
      InvInit(ss[0]);
    } else {
      SemaphoreConserved(ss, ls, n - 1);
      InvStep(ss[n - 1], ls[n - 1]);
    }
  }

  // ----- mutual exclusion -----

  lemma {:induction false} ExclusionHolds(ss: seq<State>, ls: seq<Label>, n: nat)
    requires IsDisciplinedRun(ss, ls) && n < |ss|
    ensures ExclusionInv(ss[n])
  {
    if n == 0 {
      InvInit(ss[0]);
    } else {
      ExclusionHolds(ss, ls, n - 1);
      ExclusionStep(ss[n - 1], ls[n - 1]);
    }
  }

  /** At most one task is ever between the 0 of its Enter and its Leave, revocations included. */
  lemma MutualExclusion(ss: seq<State>, ls: seq<Label>, n: nat, p: Pid, q: Pid)
    requires IsDisciplinedRun(ss, ls) && n < |ss|
    requires ss[n].inside[p] > 0 && ss[n].inside[q] > 0
    ensures p == q && ss[n].inside[p] == 1 && ss[n].lock.owner == p
  {
    ExclusionHolds(ss, ls, n);
    assert InsideOk(ss[n], p) && InsideOk(ss[n], q);
  }

  lemma Extend(ss: seq<State>, ls: seq<Label>, l: Label) returns (ss': seq<State>, ls': seq<Label>)
    requires IsRun(ss, ls) && Enabled(ss[|ls|], l)
    ensures IsRun(ss', ls')
    ensures ss' == ss + [Next(ss[|ls|], l)] && ls' == ls + [l]
  {
    ss', ls' := ss + [Next(ss[|ls|], l)], ls + [l];
  }

  /** An uncontended Enter by an idle task. */
  lemma EnterFree(ss: seq<State>, ls: seq<Label>, p: Pid) returns (ss': seq<State>, ls': seq<Label>)
    requires IsRun(ss, ls)
    requires var s := ss[|ls|]; IsAt(s, p, Idle) && s.lock.owner == NO_OWNER && s.lock.count == 1
    ensures IsRun(ss', ls') && ls' == ls + [EnterWait(p), Down(p), Acquire(p)]
    ensures var s, s' := ss[|ls|], ss'[|ls'|];
      && s'.lock == AcquireSection(s.lock.(count := 0), p, ShortLock, s.clock)
      && s'.inside == s.inside + multiset{p}
      && s'.pcs == s.pcs
  {
    ss', ls' := Extend(ss, ls, EnterWait(p));
    ss', ls' := Extend(ss', ls', Down(p));
    ss', ls' := Extend(ss', ls', Acquire(p));
    assert ss'[|ls'|].pcs == ss[|ls|].pcs[p := Idle] == ss[|ls|].pcs;
  }

  /** A second Enter of the holder of a short lock, and one Leave. */
  lemma NestedEnterLeave(ss: seq<State>, ls: seq<Label>, p: Pid) returns (ss': seq<State>, ls': seq<Label>)
    requires IsRun(ss, ls)
    requires var s := ss[|ls|]; IsAt(s, p, Idle) && s.lock.owner == p && s.lock.mode == ShortLock
    ensures IsRun(ss', ls') && ls' == ls + [EnterOwned(p), Leave(p)]
    ensures var s, s' := ss[|ls|], ss'[|ls'|];
      s'.lock == Freed(s.lock) && s'.inside == s.inside && s'.pcs == s.pcs
  {
    ss', ls' := Extend(ss, ls, EnterOwned(p));
    ss', ls' := Extend(ss', ls', Leave(p));
  }

  /** Without the discipline it fails: a nested Enter on a short lock is given up by the first Leave. */
  lemma NestedEnterBreaksExclusion() returns (ss: seq<State>, ls: seq<Label>)
    ensures IsRun(ss, ls)
    ensures ss[|ls|].inside == multiset{1, 2}
    ensures ls == [EnterWait(1), Down(1), Acquire(1)] + [EnterOwned(1), Leave(1)] + [EnterWait(2), Down(2), Acquire(2)]
  {
    ss, ls := [State(Initial(5), 0, map[1 := Idle, 2 := Idle], multiset{}, [], [])], [];
    hide Enabled, Next;
    ss, ls := EnterFree(ss, ls, 1);
    ss, ls := NestedEnterLeave(ss, ls, 1);
    ss, ls := EnterFree(ss, ls, 2);
  }

  /** The accesses that p makes in steps i to j - 1, in its program order. */
  ghost function OwnAccesses(ls: seq<Label>, p: Pid, i: nat, j: nat): seq<Touch>
    requires i <= j <= |ls|
    decreases j
  {
    if i == j then []
    else
      var l := ls[j - 1];
      OwnAccesses(ls, p, i, j - 1) + (if l.Access? && l.p == p then [Touch(p, l.reg)] else [])
  }

  lemma AccessStep(s: State, l: Label)
    requires Enabled(s, l)
    ensures Next(s, l).accesses == s.accesses + (if l.Access? then [Touch(l.p, l.reg)] else [])
    ensures l.Access? ==> s.inside[l.p] > 0
  {
  }

  /** During one stay in the region the global access history grows by exactly the accesses of the one inside, in its order. */
  lemma {:induction false} RegionAccessesContiguous(ss: seq<State>, ls: seq<Label>, i: nat, j: nat, p: Pid)
    requires IsDisciplinedRun(ss, ls) && i <= j < |ss|
    requires forall k :: i <= k <= j ==> ss[k].inside[p] > 0
    ensures ss[j].accesses == ss[i].accesses + OwnAccesses(ls, p, i, j)
    decreases j
  {
    hide Enabled, Next, Disciplined;
    if i < j {
      RegionAccessesContiguous(ss, ls, i, j - 1, p);
      var l := ls[j - 1];
      AccessStep(ss[j - 1], l);
      if l.Access? {
        MutualExclusion(ss, ls, j - 1, p, l.p);
      }
    }
  }

  // ----- ownership -----

  /** The owner field becomes p only by p's own acquiring step, and p never waits for a lock it owns. */
  lemma OwnershipStable(ss: seq<State>, ls: seq<Label>, n: nat, p: Pid)
    requires IsRun(ss, ls) && n < |ls|
    ensures ss[n].lock.owner != p && ss[n + 1].lock.owner == p ==> ls[n] == Acquire(p)
    ensures p in ss[n].pcs && ss[n].lock.owner == p ==> ss[n].pcs[p] == Idle
  {
    SemaphoreConserved(ss, ls, n);
    if p in ss[n].pcs {
      assert PCOk(ss[n], p);
    }
  }

  /** While p stays owner after acquiring at i, mode and start time are those of that acquisition. */
  lemma {:induction false} OwnerKeepsAcquisition(ss: seq<State>, ls: seq<Label>, i: nat, j: nat, p: Pid)
    requires IsRun(ss, ls) && i < j < |ss|
    requires ls[i] == Acquire(p)
    requires forall k :: i < k <= j ==> ss[k].lock.owner == p
    ensures ss[j].lock.mode == ss[i].pcs[p].t && ss[j].lock.start == ss[i].clock
    decreases j
  {
    if j == i + 1 {
    } else {
      OwnerKeepsAcquisition(ss, ls, i, j - 1, p);
      SemaphoreConserved(ss, ls, j - 1);
      SameOwnerStep(ss[j - 1], ls[j - 1]);
    }
  }

  /** A step that leaves the lock with its owner leaves mode and start time alone, and keeps a mark. */
  lemma SameOwnerStep(s: State, l: Label)
    requires Inv(s) && Enabled(s, l)
    requires s.lock.owner != NO_OWNER && Next(s, l).lock.owner == s.lock.owner
    ensures Next(s, l).lock.mode == s.lock.mode && Next(s, l).lock.start == s.lock.start
    ensures s.lock.toFree ==> Next(s, l).lock.toFree
  {
    if l.Acquire? {
      PermitExcludesOwner(s, l.p);
    }
  }

  lemma PermitExcludesOwner(s: State, p: Pid)
    requires Inv(s) && p in s.pcs && s.pcs[p].Permit?
    ensures s.lock.owner == NO_OWNER && s.lock.mode == NoLock && s.lock.count == 0
  {
    assert p in Holders(s.pcs);
  }

  /**
   A long lock acquired at step i is lost at step j only through its owner's own long unlock, or when
   more than the timeout has passed since step i. No client discipline is assumed.
   */
  lemma NoEarlyRevocation(ss: seq<State>, ls: seq<Label>, i: nat, j: nat, p: Pid)
    requires IsRun(ss, ls) && i < j < |ls|
    requires ls[i] == Acquire(p) && ss[i].pcs[p].t == LongLock
    requires forall k :: i < k <= j ==> ss[k].lock.owner == p
    requires ss[j + 1].lock.owner != p
    ensures ls[j] == LongUnlock(p) || ss[j].clock - ss[i].clock > ss[0].lock.timeout
  {
    OwnerKeepsAcquisition(ss, ls, i, j, p);
    SemaphoreConserved(ss, ls, j);
    if ls[j].Acquire? {
      PermitExcludesOwner(ss[j], ls[j].p);
    }
  }

  // ----- involuntary losses are reported exactly once -----

  /** Step l takes the long lock from v without v's long unlock. */
  predicate InvoluntaryLoss(s: State, l: Label, v: Pid)
    requires Enabled(s, l)
  {
    s.lock.owner == v && s.lock.mode == LongLock && Next(s, l).lock.owner != v && l != LongUnlock(v)
  }

  /** Step l tells v about a loss: a SIGALRM to v, or the `_TIMEOUT_` of the Leave that released v's lock. */
  predicate LossReport(s: State, l: Label, v: Pid)
    requires Enabled(s, l)
  {
    || (l.Signal? && s.pcs[l.p].victim == v)
    || (l.Leave? && LeaveSection(s.lock).1 == RET_TIMEOUT && s.lock.owner == v)
  }

  ghost function Losses(ss: seq<State>, ls: seq<Label>, v: Pid, n: nat): nat
    requires IsRun(ss, ls) && n <= |ls|
  {
    if n == 0 then 0
    else Losses(ss, ls, v, n - 1) + (if InvoluntaryLoss(ss[n - 1], ls[n - 1], v) then 1 else 0)
  }

  ghost function Reports(ss: seq<State>, ls: seq<Label>, v: Pid, n: nat): nat
    requires IsRun(ss, ls) && n <= |ls|
  {
    if n == 0 then 0
    else Reports(ss, ls, v, n - 1) + (if LossReport(ss[n - 1], ls[n - 1], v) then 1 else 0)
  }

  /** Tasks that displaced v and have not sent the signal yet. */
  function PendingSignals(s: State, v: Pid): set<Pid> {
    set p | p in s.pcs && s.pcs[p].Signalling? && s.pcs[p].victim == v
  }

  function IsPending(pc: PC, v: Pid): nat {
    if pc.Signalling? && pc.victim == v then 1 else 0
  }

  lemma PendingMove(s: State, s': State, p: Pid, v: Pid)
    requires p in s.pcs && p in s'.pcs && s'.pcs == s.pcs[p := s'.pcs[p]]
    ensures |PendingSignals(s', v)| == |PendingSignals(s, v)| - IsPending(s.pcs[p], v) + IsPending(s'.pcs[p], v)
  {
    var before, after := PendingSignals(s, v), PendingSignals(s', v);
    assert before - {p} == after - {p};
    OneApart(before, after, p);
  }

  lemma LossStep(s: State, l: Label, v: Pid)
    requires Inv(s) && Enabled(s, l)
    ensures |PendingSignals(Next(s, l), v)| + (if LossReport(s, l, v) then 1 else 0) ==
            |PendingSignals(s, v)| + (if InvoluntaryLoss(s, l, v) then 1 else 0)
  {
    var s' := Next(s, l);
    if l.Acquire? {
      PermitExcludesOwner(s, l.p);
    }
    if s'.pcs == s.pcs {
      assert PendingSignals(s', v) == PendingSignals(s, v);
    } else {
      PendingMove(s, s', l.p, v);
    }
  }

  /** Every involuntary loss of v is matched by exactly one report to v, sent already or about to be sent. */
  lemma {:induction false} LossesReportedOnce(ss: seq<State>, ls: seq<Label>, v: Pid, n: nat)
    requires IsRun(ss, ls) && n <= |ls|
    ensures Losses(ss, ls, v, n) == Reports(ss, ls, v, n) + |PendingSignals(ss[n], v)|
  {
    if n == 0 {
      assert PendingSignals(ss[0], v) == {};
    } else {
      LossesReportedOnce(ss, ls, v, n - 1);
      SemaphoreConserved(ss, ls, n - 1);
      LossStep(ss[n - 1], ls[n - 1], v);
    }
  }

  /** Under the discipline the `_TIMEOUT_` is returned to the very owner that lost the lock. */
  lemma TimeoutReachesOwner(ss: seq<State>, ls: seq<Label>, n: nat)
    requires IsDisciplinedRun(ss, ls) && n < |ls|
    requires ls[n].Leave? && LeaveSection(ss[n].lock).1 == RET_TIMEOUT
    ensures ls[n].p == ss[n].lock.owner && InvoluntaryLoss(ss[n], ls[n], ls[n].p)
  {
    ExclusionHolds(ss, ls, n);
    assert InsideOk(ss[n], ls[n].p);
  }

  // ----- bounded waiting -----

  /** Steps a task can still take before its lock call returns. */
  function Rank(pc: PC): int {
    match pc
    case Idle => 0
    case Waiting(_, r) => 3 * (MAX_ROUNDS - r) + 1
    case Permit(_, r) => 3 * (MAX_ROUNDS - r)
    case Expired(_, r) => 3 * (MAX_ROUNDS - r)
    case Signalling(_, r, _) => 3 * (MAX_ROUNDS - r) - 1
  }

  predicate Moves(l: Label, p: Pid) {
    !l.Tick? && l.p == p
  }

  ghost function StepsOf(ls: seq<Label>, p: Pid, i: nat, j: nat): nat
    requires i <= j <= |ls|
    decreases j
  {
    if i == j then 0 else StepsOf(ls, p, i, j - 1) + (if Moves(ls[j - 1], p) then 1 else 0)
  }

  ghost predicate InLockCall(ss: seq<State>, p: Pid, i: nat, j: nat) {
    i <= j <= |ss| && forall k :: i <= k < j ==> p in ss[k].pcs && ss[k].pcs[p] != Idle
  }

  /** A step of p inside its lock call lowers p's rank; a step of another task leaves p where it is. */
  lemma RankStep(s: State, l: Label, p: Pid)
    requires Inv(s) && Enabled(s, l) && p in s.pcs && s.pcs[p] != Idle
    ensures p in Next(s, l).pcs
    ensures if Moves(l, p) then Rank(Next(s, l).pcs[p]) < Rank(s.pcs[p]) else Next(s, l).pcs[p] == s.pcs[p]
  {
    assert PCOk(s, p);
  }

  lemma RankBounds(s: State, p: Pid)
    requires Inv(s) && p in s.pcs
    ensures 0 <= Rank(s.pcs[p]) <= 3 * MAX_ROUNDS + 1
  {
    assert PCOk(s, p);
  }

  /** Inside one lock call a task takes at most 301 steps, whatever the other tasks do. */
  lemma {:induction false} LockCallBounded(ss: seq<State>, ls: seq<Label>, p: Pid, i: nat, j: nat)
    requires IsRun(ss, ls) && i <= j <= |ls|
    requires p in ss[i].pcs && InLockCall(ss, p, i, j)
    ensures p in ss[j].pcs && StepsOf(ls, p, i, j) + Rank(ss[j].pcs[p]) <= Rank(ss[i].pcs[p])
    ensures StepsOf(ls, p, i, j) <= 3 * MAX_ROUNDS + 1
    decreases j
  {
    SemaphoreConserved(ss, ls, i);
    RankBounds(ss[i], p);
    hide Enabled, Next, Inv, Rank;
    if i < j {
      LockCallBounded(ss, ls, p, i, j - 1);
      SemaphoreConserved(ss, ls, j - 1);
      RankStep(ss[j - 1], ls[j - 1], p);
    }
    SemaphoreConserved(ss, ls, j);
    RankBounds(ss[j], p);
  }

  ghost function ExpiriesOf(ls: seq<Label>, p: Pid, i: nat, j: nat): nat
    requires i <= j <= |ls|
    decreases j
  {
    if i == j then 0 else ExpiriesOf(ls, p, i, j - 1) + (if ls[j - 1] == Expiry(p) then 1 else 0)
  }

  /** Expired waits counted in a task's place in the lock loop. */
  function RoundsDone(pc: PC): nat
    requires pc != Idle
  {
    pc.round + (if pc.Signalling? then 1 else 0)
  }

  lemma RoundStep(s: State, l: Label, p: Pid)
    requires Enabled(s, l) && p in s.pcs && s.pcs[p] != Idle
    requires p in Next(s, l).pcs && Next(s, l).pcs[p] != Idle
    ensures Next(s, l).pcs[p].t == s.pcs[p].t
    ensures RoundsDone(Next(s, l).pcs[p]) == RoundsDone(s.pcs[p]) + (if l == Expiry(p) then 1 else 0)
  {
  }

  lemma {:induction false} RoundsAreExpiries(ss: seq<State>, ls: seq<Label>, p: Pid, i: nat, j: nat)
    requires IsRun(ss, ls) && i <= j <= |ls|
    requires p in ss[i].pcs && ss[i].pcs[p].Waiting? && ss[i].pcs[p].round == 0
    requires InLockCall(ss, p, i, j + 1)
    ensures p in ss[j].pcs && ss[j].pcs[p] != Idle && ss[j].pcs[p].t == ss[i].pcs[p].t
    ensures ExpiriesOf(ls, p, i, j) == RoundsDone(ss[j].pcs[p])
    decreases j
  {
    if i < j {
      RoundsAreExpiries(ss, ls, p, i, j - 1);
      RoundStep(ss[j - 1], ls[j - 1], p);
    }
  }

  /**
   The lock call that starts at i ends at j either by the caller's acquiring step, which makes it the
   owner, or after exactly 100 expired waits, and then it is not the owner.
   */
  lemma LockCallOutcome(ss: seq<State>, ls: seq<Label>, p: Pid, i: nat, j: nat)
    requires IsRun(ss, ls) && i <= j < |ls|
    requires p in ss[i].pcs && ss[i].pcs[p].Waiting? && ss[i].pcs[p].round == 0
    requires InLockCall(ss, p, i, j + 1)
    requires p in ss[j + 1].pcs && ss[j + 1].pcs[p] == Idle
    ensures if ls[j] == Acquire(p) then
              ss[j + 1].lock.owner == p && ss[j + 1].lock.mode == ss[i].pcs[p].t && ExpiriesOf(ls, p, i, j) < MAX_ROUNDS
            else
              ls[j] == GiveUp(p) && ss[j + 1].lock.owner != p && ExpiriesOf(ls, p, i, j) == MAX_ROUNDS
  {
    RoundsAreExpiries(ss, ls, p, i, j);
    SemaphoreConserved(ss, ls, j);
    assert PCOk(ss[j], p);
  }

  // ----- progress of revocation -----

  /** A waiter's expired section frees the lock exactly when the lock is overdue and its owner is idle. */
  lemma ExpiryFrees(ss: seq<State>, ls: seq<Label>, n: nat)
    requires IsRun(ss, ls) && n < |ls| && ls[n].Expiry?
    requires ss[n].lock.mode != NoLock
    ensures ss[n + 1].lock.mode == NoLock <==> Overdue(ss[n].lock, ss[n].clock) && !ss[n].lock.inRegion
    ensures ss[n + 1].lock.mode == NoLock ==>
              && ss[n + 1].lock.count == 1
              && ss[n + 1].pcs[ls[n].p].Signalling? && ss[n + 1].pcs[ls[n].p].victim == ss[n].lock.owner
    ensures Overdue(ss[n].lock, ss[n].clock) && ss[n].lock.inRegion ==> ss[n + 1].lock.toFree
  {
    SemaphoreConserved(ss, ls, n);
    SemaphoreConserved(ss, ls, n + 1);
  }

  /** A mark stays until the owner changes, and the first Leave under it frees the lock and reports `_TIMEOUT_`. */
  lemma {:induction false} MarkFreesAtNextLeave(ss: seq<State>, ls: seq<Label>, i: nat, j: nat)
    requires IsRun(ss, ls) && i <= j < |ss|
    requires ss[i].lock.toFree
    requires forall k :: i <= k <= j ==> ss[k].lock.owner == ss[i].lock.owner
    ensures ss[j].lock.toFree
    ensures j < |ls| && ls[j].Leave? ==>
              ss[j + 1].lock.mode == NoLock && ss[j + 1].lock.count == 1 && LeaveSection(ss[j].lock).1 == RET_TIMEOUT
    decreases j
  {
    SemaphoreConserved(ss, ls, j);
    if i < j {
      MarkFreesAtNextLeave(ss, ls, i, j - 1);
      SemaphoreConserved(ss, ls, j - 1);
      SameOwnerStep(ss[j - 1], ls[j - 1]);
    }
    if j < |ls| {
      SemaphoreConserved(ss, ls, j + 1);
    }
  }

  /**
   The header comment promises that the driver can take the lock from a guilty program. It cannot when
   the program long-locks and then makes no further lock call: the fresh lock carries the in-region
   flag, so waiters only mark it, however long they wait.
   */
  lemma {:induction false} SilentOwnerKeepsLock(ss: seq<State>, ls: seq<Label>, i: nat, j: nat, p: Pid)
    requires IsDisciplinedRun(ss, ls) && i < j < |ss|
    requires ls[i] == Acquire(p) && ss[i].pcs[p].t == LongLock
    requires forall k :: i < k < j ==> ls[k] != Leave(p) && ls[k] != LongUnlock(p)
    ensures ss[j].lock.owner == p && ss[j].lock.inRegion && ss[j].lock.mode == LongLock
    decreases j
  {
    if i + 1 < j {
      SilentOwnerKeepsLock(ss, ls, i, j - 1, p);
      ExclusionHolds(ss, ls, j - 1);
      SilentOwnerStep(ss[j - 1], ls[j - 1], p);
    }
  }

  /** A run in which task 1 long-locks, more than the timeout passes, and the expired wait of task 2 only marks the lock. */
  lemma OverdueButMarked() returns (ss: seq<State>, ls: seq<Label>)
    ensures IsRun(ss, ls) && IsDisciplinedRun(ss, ls)
    ensures ls == [LongWait(1), Down(1), Acquire(1)] + [Tick, Tick] + [EnterWait(2), Expire(2), Expiry(2)]
    ensures var s := ss[|ls|];
      && s.clock - s.lock.start > s.lock.timeout
      && s.lock.owner == 1 && s.lock.mode == LongLock && s.lock.inRegion && s.lock.toFree && s.lock.count == 0
  {
    ss, ls := [State(Initial(1), 0, map[1 := Idle, 2 := Idle], multiset{}, [], [])], [];
    ss, ls := LongLockFree(ss, ls, 1);
    ss, ls := ExtendQuietly(ss, ls, Tick);
    ss, ls := ExtendQuietly(ss, ls, Tick);
    ss, ls := ExpiredWait(ss, ls, 2);
  }

  /** A step of a task that is not inside keeps a run disciplined. */
  lemma ExtendQuietly(ss: seq<State>, ls: seq<Label>, l: Label) returns (ss': seq<State>, ls': seq<Label>)
    requires IsDisciplinedRun(ss, ls) && Enabled(ss[|ls|], l) && Disciplined(ss[|ls|], l)
    ensures IsDisciplinedRun(ss', ls') && ss' == ss + [Next(ss[|ls|], l)] && ls' == ls + [l]
  {
    hide Enabled, Next, Disciplined;
    ss', ls' := Extend(ss, ls, l);
  }

  lemma LongLockFree(ss: seq<State>, ls: seq<Label>, p: Pid) returns (ss': seq<State>, ls': seq<Label>)
    requires IsDisciplinedRun(ss, ls)
    requires var s := ss[|ls|]; IsAt(s, p, Idle) && s.lock.owner == NO_OWNER && s.lock.count == 1 && s.inside == multiset{}
    ensures IsDisciplinedRun(ss', ls') && ls' == ls + [LongWait(p), Down(p), Acquire(p)]
    ensures var s, s' := ss[|ls|], ss'[|ls'|];
      s' == s.(lock := AcquireSection(s.lock.(count := 0), p, LongLock, s.clock), owners := s.owners + [p])
  {
    ss', ls' := ExtendQuietly(ss, ls, LongWait(p));
    ss', ls' := ExtendQuietly(ss', ls', Down(p));
    ss', ls' := ExtendQuietly(ss', ls', Acquire(p));
    assert ss'[|ls'|].pcs == ss[|ls|].pcs[p := Idle] == ss[|ls|].pcs;
  }

  lemma ExpiredWait(ss: seq<State>, ls: seq<Label>, p: Pid) returns (ss': seq<State>, ls': seq<Label>)
    requires IsDisciplinedRun(ss, ls)
    requires var s := ss[|ls|]; IsAt(s, p, Idle) && s.lock.owner != p && s.inside == multiset{}
    requires Overdue(ss[|ls|].lock, ss[|ls|].clock) && ss[|ls|].lock.inRegion
    ensures IsDisciplinedRun(ss', ls') && ls' == ls + [EnterWait(p), Expire(p), Expiry(p)]
    ensures ss'[|ls'|].lock == ss[|ls|].lock.(toFree := true) && ss'[|ls'|].clock == ss[|ls|].clock
  {
    ss', ls' := ExtendQuietly(ss, ls, EnterWait(p));
    ss', ls' := ExtendQuietly(ss', ls', Expire(p));
    ss', ls' := ExtendQuietly(ss', ls', Expiry(p));
  }

  lemma SilentOwnerStep(s: State, l: Label, p: Pid)
    requires ExclusionInv(s) && Enabled(s, l) && Disciplined(s, l)
    requires s.lock.owner == p && s.lock.inRegion && s.lock.mode == LongLock
    requires l != Leave(p) && l != LongUnlock(p)
    ensures Next(s, l).lock.owner == p && Next(s, l).lock.inRegion && Next(s, l).lock.mode == LongLock
  {
    LeaverOwns(s, l);
    if l.Acquire? {
      PermitExcludesOwner(s, l.p);
    }
  }

  lemma LeaverOwns(s: State, l: Label)
    requires ExclusionInv(s) && Enabled(s, l) && Disciplined(s, l)
    ensures l.Leave? ==> l.p == s.lock.owner
  {
    if l.Leave? {
      assert InsideOk(s, l.p);
    }
  }
}
