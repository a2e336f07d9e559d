/**
 The lock as a transition system over any number of tasks. Each spinlock section is one step;
 `down_timeout`, the signal and the return of the system call happen outside the spinlock and are
 steps of their own, so every interleaving the source allows at that grain is a run here.
 */
module LockProtocol {
  import opened LockSections

  /** Where a task is in the lock code. */
  datatype PC =
    | Idle                                            // outside the lock code
    | Waiting(t: LockType, round: nat)                // in down_timeout, or done when round == MAX_ROUNDS
    | Permit(t: LockType, round: nat)                 // down_timeout succeeded, fields not written yet
    | Expired(t: LockType, round: nat)                // down_timeout gave up, section not entered yet
    | Signalling(t: LockType, round: nat, victim: int)

  datatype State = State(
    lock: Fields,
    clock: nat,
    pcs: map<Pid, PC>,
    // history
    inside: multiset<Pid>,   // Enter calls that returned 0 and were not yet followed by a Leave
    owners: seq<int>,        // every value written to m_lnPID
    accesses: seq<Touch>)    // hardware accesses

  datatype Label =
    | Tick
    | EnterOwned(p: Pid)       // EnterCritRegion, ownership test true: returns 0
    | EnterWait(p: Pid)        // EnterCritRegion, ownership test false: starts the lock loop
    | LongOwned(p: Pid)        // LongLockOfCriticalRegion, test true: returns _ALREADY_LOCKED_
    | LongWait(p: Pid)
    | Leave(p: Pid)
    | LongUnlock(p: Pid)
    | Down(p: Pid)
    | Expire(p: Pid)
    | Acquire(p: Pid)          // the section after a granted wait: the lock call returns 0
    | Expiry(p: Pid)           // the section after an expired wait
    | Signal(p: Pid)
    | GiveUp(p: Pid)           // all rounds used: LockCritRegionPrivate returns -ETIME
    | Access(p: Pid, reg: nat) // a hardware access between Enter and Leave

  predicate IsAt(s: State, p: Pid, pc: PC) {
    p in s.pcs && s.pcs[p] == pc
  }

  predicate Enabled(s: State, l: Label) {
    match l
    case Tick => true
    case EnterOwned(p) => IsAt(s, p, Idle) && s.lock.owner == p
    case EnterWait(p) => IsAt(s, p, Idle) && s.lock.owner != p
    case LongOwned(p) => IsAt(s, p, Idle) && s.lock.owner == p
    case LongWait(p) => IsAt(s, p, Idle) && s.lock.owner != p
    case Leave(p) => IsAt(s, p, Idle)
    case LongUnlock(p) => IsAt(s, p, Idle)
    case Down(p) => p in s.pcs && s.pcs[p].Waiting? && s.pcs[p].round < MAX_ROUNDS && s.lock.count > 0
    case Expire(p) => p in s.pcs && s.pcs[p].Waiting? && s.pcs[p].round < MAX_ROUNDS
    case Acquire(p) => p in s.pcs && s.pcs[p].Permit?
    case Expiry(p) => p in s.pcs && s.pcs[p].Expired?
    case Signal(p) => p in s.pcs && s.pcs[p].Signalling?
    case GiveUp(p) => p in s.pcs && s.pcs[p].Waiting? && s.pcs[p].round == MAX_ROUNDS
    case Access(p, _) => IsAt(s, p, Idle) && s.inside[p] > 0
  }

  /** The step of an expired waiter's section; a displaced owner is signalled in a later step. */
  function AfterExpiry(s: State, p: Pid): State
    requires p in s.pcs && s.pcs[p].Expired?
  {
    var (lock, victim) := ExpirySection(s.lock, s.clock);
    var pc := s.pcs[p];
    s.(lock := lock,
       owners := if lock.owner != s.lock.owner then s.owners + [NO_OWNER] else s.owners,
       pcs := s.pcs[p := if victim != 0 then Signalling(pc.t, pc.round, victim)
                         else Waiting(pc.t, pc.round + 1)])
  }

  function AfterAcquire(s: State, p: Pid): State
    requires p in s.pcs && s.pcs[p].Permit?
  {
    var t := s.pcs[p].t;
    s.(lock := AcquireSection(s.lock, p, t, s.clock),
       owners := s.owners + [p],
       inside := if t == ShortLock then s.inside + multiset{p} else s.inside,
       pcs := s.pcs[p := Idle])
  }

  function AfterLeave(s: State, p: Pid): State {
    s.(lock := LeaveSection(s.lock).0,
       owners := if LeaveFrees(s.lock) then s.owners + [NO_OWNER] else s.owners,
       inside := s.inside - multiset{p})
  }

  function Next(s: State, l: Label): State
    requires Enabled(s, l)
  {
    match l
    case Tick => s.(clock := s.clock + 1)
    case EnterOwned(p) => s.(lock := s.lock.(inRegion := true), inside := s.inside + multiset{p})
    case EnterWait(p) => s.(pcs := s.pcs[p := Waiting(ShortLock, 0)])
    case LongOwned(p) => s
    case LongWait(p) => s.(pcs := s.pcs[p := Waiting(LongLock, 0)])
    case Leave(p) => AfterLeave(s, p)
    case LongUnlock(p) =>
      s.(lock := LongUnlockSection(s.lock, p).0,
         owners := if s.lock.owner == p then s.owners + [NO_OWNER] else s.owners)
    case Down(p) =>
      s.(lock := s.lock.(count := s.lock.count - 1),
         pcs := s.pcs[p := Permit(s.pcs[p].t, s.pcs[p].round)])
    case Expire(p) => s.(pcs := s.pcs[p := Expired(s.pcs[p].t, s.pcs[p].round)])
    case Acquire(p) => AfterAcquire(s, p)
    case Expiry(p) => AfterExpiry(s, p)
    case Signal(p) => s.(pcs := s.pcs[p := Waiting(s.pcs[p].t, s.pcs[p].round + 1)])
    case GiveUp(p) => s.(pcs := s.pcs[p := Idle])
    case Access(p, reg) => s.(accesses := s.accesses + [Touch(p, reg)])
  }

  predicate Init(s: State) {
    && s.lock == Initial(s.lock.timeout)
    && (forall p :: p in s.pcs ==> s.pcs[p] == Idle)
    && s.inside == multiset{}
    && s.owners == []
    && s.accesses == []
  }

  // ----- the invariant of every run, whatever the clients do -----

  /** The tasks past `down` that have not written the fields yet. */
  function Holders(pcs: map<Pid, PC>): set<Pid> {
    set p | p in pcs && pcs[p].Permit?
  }

  /** Count of the semaphore, of the permits in flight, and of the lock itself. */
  function Permits(s: State): nat {
    s.lock.count + |Holders(s.pcs)| + (if s.lock.mode != NoLock then 1 else 0)
  }

  predicate PCOk(s: State, p: Pid)
    requires p in s.pcs
  {
    var pc := s.pcs[p];
    && (pc != Idle ==> s.lock.owner != p)
    && (pc.Waiting? ==> pc.round <= MAX_ROUNDS)
    && (pc.Permit? || pc.Expired? || pc.Signalling? ==> pc.round < MAX_ROUNDS)
    && (pc != Idle ==> pc.t != NoLock)
    && (pc.Signalling? ==> pc.victim > 0)
  }

  predicate FieldsOk(f: Fields, clock: nat) {
    && (f.owner == NO_OWNER <==> f.mode == NoLock)
    && (f.owner == NO_OWNER || f.owner > 0)
    && (f.mode != NoLock ==> f.start <= clock)
    && (f.toFree ==> f.mode == LongLock && f.inRegion && clock - f.start > f.timeout)
  }

  ghost predicate Inv(s: State) {
    && Permits(s) == 1
    && FieldsOk(s.lock, s.clock)
    && (forall p :: p in s.pcs ==> PCOk(s, p))
  }

  /** Moving one task changes the number of permits in flight only by that task. */
  lemma HoldersMove(pcs: map<Pid, PC>, p: Pid, pc: PC)
    requires p in pcs
    ensures |Holders(pcs[p := pc])| ==
            |Holders(pcs)| - (if pcs[p].Permit? then 1 else 0) + (if pc.Permit? then 1 else 0)
  {
    var before, after := Holders(pcs), Holders(pcs[p := pc]);
    assert before - {p} == after - {p};
    OneApart(before, after, p);
  }

  lemma OneApart(a: set<Pid>, b: set<Pid>, p: Pid)
    requires a - {p} == b - {p}
    ensures |b| == |a| - (if p in a then 1 else 0) + (if p in b then 1 else 0)
  {
    assert p in a ==> a == (a - {p}) + {p};
    assert p in b ==> b == (b - {p}) + {p};
    assert p !in a ==> a == a - {p};
    assert p !in b ==> b == b - {p};
  }

  lemma PermitsConserved(s: State, l: Label)
    requires Inv(s) && Enabled(s, l)
    ensures Permits(Next(s, l)) == 1
  {
    match l
    case EnterWait(p) => HoldersMove(s.pcs, p, Next(s, l).pcs[p]);
    case LongWait(p) => HoldersMove(s.pcs, p, Next(s, l).pcs[p]);
    case Down(p) => HoldersMove(s.pcs, p, Next(s, l).pcs[p]);
    case Expire(p) => HoldersMove(s.pcs, p, Next(s, l).pcs[p]);
    case Acquire(p) =>
      assert p in Holders(s.pcs);
      HoldersMove(s.pcs, p, Idle);
    case Expiry(p) => HoldersMove(s.pcs, p, Next(s, l).pcs[p]);
    case Signal(p) => HoldersMove(s.pcs, p, Next(s, l).pcs[p]);
    case GiveUp(p) => HoldersMove(s.pcs, p, Idle);
    case _ =>
  }

  lemma FieldsStayOk(s: State, l: Label)
    requires Inv(s) && Enabled(s, l)
    ensures FieldsOk(Next(s, l).lock, Next(s, l).clock)
  {
  }

  lemma PCsStayOk(s: State, l: Label, q: Pid)
    requires Inv(s) && Enabled(s, l)
    requires q in Next(s, l).pcs
    ensures PCOk(Next(s, l), q)
  {
    assert q in s.pcs && PCOk(s, q);
  }

  lemma InvInit(s: State)
    requires Init(s)
    ensures Inv(s)
  {
    assert Holders(s.pcs) == {};
  }

  lemma InvStep(s: State, l: Label)
    requires Inv(s) && Enabled(s, l)
    ensures Inv(Next(s, l))
  {
    PermitsConserved(s, l);
    FieldsStayOk(s, l);
    forall q | q in Next(s, l).pcs ensures PCOk(Next(s, l), q) {
      PCsStayOk(s, l, q);
    }
  }

  // ----- the clients' discipline -----

  /** The task that makes the call `l`, when `l` is a call of the lock interface other than Leave. */
  predicate CallsWhileOutside(l: Label) {
    l.EnterOwned? || l.EnterWait? || l.LongOwned? || l.LongWait? || l.LongUnlock?
  }

  /** Leave only after Enter returned 0, and no other lock call in between. */
  predicate Disciplined(s: State, l: Label) {
    && (l.Leave? ==> s.inside[l.p] > 0)
    && (CallsWhileOutside(l) ==> s.inside[l.p] == 0)
  }

  predicate InsideOk(s: State, p: Pid) {
    s.inside[p] > 0 ==>
      && s.inside[p] == 1
      && s.lock.owner == p && s.lock.inRegion
      && IsAt(s, p, Idle)
  }

  ghost predicate ExclusionInv(s: State) {
    Inv(s) && forall p: Pid :: InsideOk(s, p)
  }

  lemma ExclusionStep(s: State, l: Label)
    requires ExclusionInv(s) && Enabled(s, l) && Disciplined(s, l)
    ensures ExclusionInv(Next(s, l))
  {
    InvStep(s, l);
    var s' := Next(s, l);
    forall q: Pid ensures InsideOk(s', q) {
      InsideOkStep(s, l, q);
    }
  }

  lemma InsideOkStep(s: State, l: Label, q: Pid)
    requires ExclusionInv(s) && Enabled(s, l) && Disciplined(s, l)
    ensures InsideOk(Next(s, l), q)
  {
    assert InsideOk(s, q);
    if l.Leave? || CallsWhileOutside(l) {
      assert InsideOk(s, l.p);
    }
    if l.Acquire? {
      // the acquiring task was given the one permit, so nobody owned the lock
      assert l.p in Holders(s.pcs);
      assert InsideOk(s, l.p);
    }
  }
}
