/**
 The fields of the device lock (`SCriticalRegionLock`) and what each spinlock section of
 criticalregionlock.c does to them. Every section is a function from the fields found to the
 fields left behind; the class in LockObject.dfy executes the sections statement by statement and
 the transition systems in LockProtocol.dfy and LockFine.dfy interleave them.
 */
module LockSections {

  /** A task identifier, as `current->pid` yields it inside a system call. */
  type Pid = p: int | 0 < p witness 1

  /** `enum _SEM_LOCK_TYPE_` */
  datatype LockType = NoLock | ShortLock | LongLock

  /** A hardware access of a task to a register. */
  datatype Touch = Touch(task: Pid, reg: nat)

  /** The value of `m_lnPID` while nobody owns the lock. */
  const NO_OWNER: int := -1

  const RET_OK: int := 0
  const RET_TIMEOUT: int := -3
  const RET_ALREADY_LOCKED: int := -4
  const RET_NOT_LOCK_OWNER: int := -5
  const RET_ETIME: int := -62

  /** The retry bound of `LockCritRegionPrivate`. */
  const MAX_ROUNDS: nat := 100

  datatype Fields = Fields(
    count: nat,          // m_semaphore
    owner: int,          // m_lnPID
    inRegion: bool,      // m_nInCriticalRegion
    toFree: bool,        // m_nShouldBeFreed
    mode: LockType,      // m_nLockingType
    start: nat,          // m_ullnStartJiffi
    timeout: nat)        // m_ulnJiffiesTmOut

  /** The lock after `InitCritRegionLock`. */
  function Initial(timeout: nat): Fields {
    Fields(1, NO_OWNER, false, false, NoLock, 0, timeout)
  }

  /** Label `unlockSemaphore` down to the end of the section. */
  function Freed(f: Fields): Fields {
    f.(count := f.count + 1, owner := NO_OWNER, toFree := false, mode := NoLock, inRegion := false)
  }

  /** True when Leave reaches `unlockSemaphore`. */
  predicate LeaveFrees(f: Fields) {
    f.mode == ShortLock || f.toFree
  }

  /** `UnlockCritRegionPrivate(_SHORT_LOCK_UNLOCK_)`: fields left and value returned. */
  function LeaveSection(f: Fields): (Fields, int) {
    if f.mode == ShortLock then (Freed(f), RET_OK)
    else if f.toFree then (Freed(f), RET_TIMEOUT)
    else (f.(inRegion := false), RET_OK)
  }

  /** `UnlockCritRegionPrivate(_LONG_LOCK_UNLOCK_)`. */
  function LongUnlockSection(f: Fields, p: Pid): (Fields, int) {
    if f.owner == p then (Freed(f), RET_OK) else (f, RET_NOT_LOCK_OWNER)
  }

  /** The test a waiter makes after its `down_timeout` expired. */
  predicate Overdue(f: Fields, now: nat) {
    f.mode == LongLock && now - f.start > f.timeout
  }

  /** The section of a waiter whose `down_timeout` expired: fields left, and the task to signal (0: none). */
  function ExpirySection(f: Fields, now: nat): (Fields, int) {
    if !Overdue(f, now) then (f, 0)
    else if f.inRegion then (f.(toFree := true), 0)
    else (f.(count := f.count + 1, mode := NoLock, owner := NO_OWNER), f.owner)
  }

  /** The section of a waiter whose `down_timeout` succeeded. */
  function AcquireSection(f: Fields, p: Pid, t: LockType, now: nat): Fields {
    f.(mode := t, inRegion := true, toFree := false, owner := p, start := now)
  }
}
