/**
 The lock object of criticalregionlock.c, statement by statement. Each method that the source runs
 under the spinlock is proved against the section function it implements; what the sections
 guarantee together is proved over all interleavings in LockProtocol.dfy and LockRuns.dfy.
 */
module LockObject {
  import opened LockSections

  /** What other tasks and the clock contribute to one round of the lock loop. */
  datatype Round = Round(
    expired: bool,     // down_timeout gave up
    found: Fields,     // the fields as this task finds them when it enters the spinlock section
    now: nat)          // get_jiffies_64()

  /** Index of the first round whose `down_timeout` succeeded, or the number of rounds. */
  function FirstGrant(rounds: seq<Round>): (k: nat)
    ensures k <= |rounds|
    ensures forall i :: 0 <= i < k ==> rounds[i].expired
    ensures k < |rounds| ==> !rounds[k].expired
  {
    if |rounds| == 0 || !rounds[0].expired then 0 else 1 + FirstGrant(rounds[1..])
  }

  lemma GrantIs(rounds: seq<Round>, k: nat)
    requires k < |rounds| && !rounds[k].expired && forall i :: 0 <= i < k ==> rounds[i].expired
    ensures FirstGrant(rounds) == k
  {
  }

  /** The tasks that expired rounds displace, in order. */
  function Victims(rounds: seq<Round>): seq<int> {
    if rounds == [] then []
    else
      var last := rounds[|rounds| - 1];
      var v := ExpirySection(last.found, last.now).1;
      Victims(rounds[..|rounds| - 1]) + (if v != 0 then [v] else [])
  }

  /** An expired round that takes the lock away: it finds an overdue long lock whose owner is idle. */
  predicate Steals(r: Round) {
    r.found.mode == LongLock && r.now - r.found.start > r.found.timeout && !r.found.inRegion && r.found.owner != 0
  }

  lemma VictimsLast(rounds: seq<Round>)
    requires rounds != []
    ensures var n := |rounds| - 1;
      Victims(rounds) == Victims(rounds[..n]) + if Steals(rounds[n]) then [rounds[n].found.owner] else []
  {
  }

  /** Each signal goes to the owner that its round found, and the rounds are in order. */
  ghost predicate Sound(rounds: seq<Round>, signals: seq<int>, at: seq<nat>) {
    && |at| == |signals|
    && (forall i :: 0 <= i < |at| ==> at[i] < |rounds| && Steals(rounds[at[i]]) && signals[i] == rounds[at[i]].found.owner)
    && (forall i, j :: 0 <= i < j < |at| ==> at[i] < at[j])
  }

  /** No stealing round is missing. */
  ghost predicate Complete(rounds: seq<Round>, at: seq<nat>) {
    forall k: nat :: k < |rounds| && Steals(rounds[k]) ==> k in at
  }

  ghost predicate SignalsOf(rounds: seq<Round>, signals: seq<int>, at: seq<nat>) {
    Sound(rounds, signals, at) && Complete(rounds, at)
  }

  lemma SoundGrows(front: seq<Round>, rounds: seq<Round>, signals: seq<int>, at: seq<nat>)
    requires Sound(front, signals, at) && |rounds| == |front| + 1 && rounds[..|front|] == front
    ensures Sound(rounds, signals, at)
    ensures var r := rounds[|front|]; Steals(r) ==> Sound(rounds, signals + [r.found.owner], at + [|front|])
  {
    hide Steals;
    assert forall k :: 0 <= k < |front| ==> rounds[k] == front[k];
  }

  lemma CompleteGrows(front: seq<Round>, rounds: seq<Round>, at: seq<nat>)
    requires Complete(front, at) && |rounds| == |front| + 1 && rounds[..|front|] == front
    ensures Complete(rounds, if Steals(rounds[|front|]) then at + [|front|] else at)
  {
    hide Steals;
    var n := |front|;
    var at' := if Steals(rounds[n]) then at + [n] else at;
    forall k: nat | k < |rounds| && Steals(rounds[k]) ensures k in at' {
      if k < n {
        assert front[k] == rounds[k];
        assert k in at;
      } else {
        assert at'[|at|] == n;
      }
    }
  }

  /**
   The signals of a lock loop, said of the fields its rounds found: they go to the owners of all overdue long locks that
   a round found with their owner idle, once for each, in the order of the rounds.
   */
  lemma {:induction false} VictimsExact(rounds: seq<Round>) returns (at: seq<nat>)
    ensures SignalsOf(rounds, Victims(rounds), at)
  {
    hide Victims, Sound, Complete, Steals;
    if rounds == [] {
      at := NoSignals();
      assert rounds == [];
    } else {
      var n := |rounds| - 1;
      at := VictimsExact(rounds[..n]);
      VictimsLast(rounds);
      SoundGrows(rounds[..n], rounds, Victims(rounds[..n]), at);
      CompleteGrows(rounds[..n], rounds, at);
      assert Victims(rounds[..n]) + [] == Victims(rounds[..n]);
      if Steals(rounds[n]) {
        at := at + [n];
      }
    }
  }

  lemma NoSignals() returns (at: seq<nat>)
    ensures SignalsOf([], Victims([]), at)
  {
    at := [];
  }

  /** The rounds that took an overdue long lock from v while v was idle. */
  ghost function StolenFrom(rounds: seq<Round>, v: Pid): set<nat> {
    set k: nat | k < |rounds| && rounds[k].found.owner == v && rounds[k].found.mode == LongLock
                 && rounds[k].now - rounds[k].found.start > rounds[k].found.timeout && !rounds[k].found.inRegion
  }

  lemma StolenLast(rounds: seq<Round>, v: Pid)
    requires rounds != []
    ensures var n := |rounds| - 1; var front := StolenFrom(rounds[..n], v);
      StolenFrom(rounds, v) == (if Steals(rounds[n]) && rounds[n].found.owner == v then front + {n} else front) && n !in front
  {
  }

  /** Every task is signalled as often as a round took the lock from it. */
  lemma {:induction false} VictimsCounted(rounds: seq<Round>, v: Pid)
    ensures multiset(Victims(rounds))[v] == |StolenFrom(rounds, v)|
  {
    if rounds != [] {
      hide Victims, StolenFrom, Steals;
      var n := |rounds| - 1;
      VictimsCounted(rounds[..n], v);
      VictimsLast(rounds);
      StolenLast(rounds, v);
    }
  }

  /** What a lock loop over the given rounds leaves behind: a grant within MAX_ROUNDS makes the caller the owner. */
  ghost predicate LoopOutcome(p: Pid, t: LockType, rounds: seq<Round>, after: Fields, signalled: seq<int>)
    requires |rounds| == MAX_ROUNDS
  {
    var k := FirstGrant(rounds);
    && signalled == Victims(rounds[..k])
    && (exists at :: SignalsOf(rounds[..k], signalled, at))
    && after == (if k < MAX_ROUNDS then AcquireSection(rounds[k].found, p, t, rounds[k].now)
                 else ExpirySection(rounds[MAX_ROUNDS - 1].found, rounds[MAX_ROUNDS - 1].now).0)
  }

  class CriticalRegionLock {
    var count: nat
    var owner: int
    var inRegion: bool
    var toFree: bool
    var mode: LockType
    var start: nat
    var timeout: nat

    ghost function Snapshot(): Fields
      reads this
    {
      Fields(count, owner, inRegion, toFree, mode, start, timeout)
    }

    /** `InitCritRegionLock` */
    constructor (timeoutJiffies: nat)
      ensures Snapshot() == Initial(timeoutJiffies)
    {
      start, toFree, mode := 0, false, NoLock;  // memset
      owner := NO_OWNER;
      inRegion := false;
      timeout := timeoutJiffies;
      count := 1;
    }

    /** The ownership test at the head of `EnterCritRegion`. */
    method EnterTest(p: Pid) returns (owned: bool)
      modifies this`inRegion
      ensures owned == (owner == p)
      ensures Snapshot() == if owned then old(Snapshot()).(inRegion := true) else old(Snapshot())
    {
      owned := p == owner;
      if owned {
        inRegion := true;
      }
    }

    /** `LeaveCritRegion` */
    method Leave() returns (ret: int)
      modifies this
      ensures (Snapshot(), ret) == LeaveSection(old(Snapshot()))
      ensures ret == if old(mode) != ShortLock && old(toFree) then -3 else 0
      ensures !inRegion && start == old(start) && timeout == old(timeout)
      ensures if old(mode) == ShortLock || old(toFree)
        then count == old(count) + 1 && owner == -1 && mode == NoLock && !toFree
        else count == old(count) && owner == old(owner) && mode == old(mode) && !toFree
    {
      ret := RET_OK;
      if mode == ShortLock {
        UnlockSemaphore();
      } else if toFree {
        ret := RET_TIMEOUT;
        UnlockSemaphore();
      }
      inRegion := false;
    }

    /** `UnlockLongCritRegion` */
    method LongUnlock(p: Pid) returns (ret: int)
      modifies this
      ensures (Snapshot(), ret) == LongUnlockSection(old(Snapshot()), p)
      ensures ret == if old(owner) == p then 0 else -5
      ensures old(owner) == p ==> count == old(count) + 1 && owner == -1 && mode == NoLock && !toFree && !inRegion
      ensures old(owner) != p ==> Snapshot() == old(Snapshot())
    {
      if owner != p {
        return RET_NOT_LOCK_OWNER;
      }
      ret := RET_OK;
      UnlockSemaphore();
      inRegion := false;
    }

    method UnlockSemaphore()
      modifies this
      ensures Snapshot() == Freed(old(Snapshot())).(inRegion := old(inRegion))
    {
      count := count + 1;
      owner := NO_OWNER;
      toFree := false;
      mode := NoLock;
    }

    /** The section after an expired `down_timeout`. */
    method OnExpiry(now: nat) returns (pidToKill: int)
      modifies this
      ensures (Snapshot(), pidToKill) == ExpirySection(old(Snapshot()), now)
      ensures var overdue := old(mode) == LockType.LongLock && now - old(start) > old(timeout);
        && toFree == (old(toFree) || (overdue && inRegion)) && inRegion == old(inRegion) && start == old(start)
        && if overdue && !inRegion
           then pidToKill == old(owner) && owner == -1 && mode == NoLock && count == old(count) + 1
           else pidToKill == 0 && owner == old(owner) && mode == old(mode) && count == old(count)
    {
      pidToKill := 0;
      if mode == LockType.LongLock && now - start > timeout {
        if inRegion {
          toFree := true;
        } else {
          count := count + 1;
          mode := NoLock;
          pidToKill := owner;
          owner := NO_OWNER;
        }
      }
    }

    /** The section after a successful `down_timeout`. */
    method OnGrant(p: Pid, t: LockType, now: nat)
      modifies this
      ensures Snapshot() == AcquireSection(old(Snapshot()), p, t, now)
      ensures mode == t && owner == p && start == now && inRegion && !toFree && count == old(count) && timeout == old(timeout)
    {
      mode := t;
      inRegion := true;
      toFree := false;
      owner := p;
      start := now;
    }

    /** Other tasks' sections ran while this one was outside the spinlock. */
    method Observe(f: Fields)
      modifies this
      ensures Snapshot() == f
    {
      count, owner, inRegion, toFree, mode, start, timeout :=
        f.count, f.owner, f.inRegion, f.toFree, f.mode, f.start, f.timeout;
    }

    /**
     `LockCritRegionPrivate`, with the interference of the other tasks given round by round.
     It succeeds exactly when one of the first MAX_ROUNDS waits is granted, leaves the fields of
     the acquiring section behind, and signals exactly the owners that its expired rounds displaced.
     */
    method LockPrivate(p: Pid, t: LockType, rounds: seq<Round>) returns (ret: int, signalled: seq<int>)
      requires |rounds| == MAX_ROUNDS
      modifies this
      ensures ret == if FirstGrant(rounds) < MAX_ROUNDS then RET_OK else RET_ETIME
      ensures LoopOutcome(p, t, rounds, Snapshot(), signalled)
    {
      hide SignalsOf;
      signalled := [];
      var i := 0;
      while i < MAX_ROUNDS
        invariant 0 <= i <= MAX_ROUNDS
        invariant forall j :: 0 <= j < i ==> rounds[j].expired
        invariant signalled == Victims(rounds[..i])
        invariant 0 < i ==> Snapshot() == ExpirySection(rounds[i - 1].found, rounds[i - 1].now).0
      {
        Observe(rounds[i].found);
        if rounds[i].expired {
          var pidToKill := OnExpiry(rounds[i].now);
          assert rounds[..i + 1][..i] == rounds[..i];
          if pidToKill != 0 {
            signalled := signalled + [pidToKill];
          }
        } else {
          OnGrant(p, t, rounds[i].now);
          assert FirstGrant(rounds) == i by { GrantIs(rounds, i); }
          ghost var at := VictimsExact(rounds[..i]);
          return RET_OK, signalled;
        }
        i := i + 1;
      }
      ret := RET_ETIME;
      ghost var at := VictimsExact(rounds[..MAX_ROUNDS]);
    }

    /** `EnterCritRegion`: returns 0 exactly when the caller already owned the lock or one of its waits was granted. */
    method Enter(p: Pid, rounds: seq<Round>) returns (ret: int, signalled: seq<int>)
      requires |rounds| == MAX_ROUNDS
      modifies this
      ensures ret == RET_OK <==> old(owner) == p || FirstGrant(rounds) < MAX_ROUNDS
      ensures old(owner) == p ==> Snapshot() == old(Snapshot()).(inRegion := true) && signalled == []
      ensures old(owner) != p ==> LoopOutcome(p, ShortLock, rounds, Snapshot(), signalled)
    {
      var owned := EnterTest(p);
      if owned {
        return RET_OK, [];
      }
      ret, signalled := LockPrivate(p, ShortLock, rounds);
    }

    /** `LongLockOfCriticalRegion`: it drops the result of the lock loop, so its 0 does not tell whether the caller owns the lock. */
    method LongLock(p: Pid, rounds: seq<Round>) returns (ret: int, signalled: seq<int>)
      requires |rounds| == MAX_ROUNDS
      modifies this
      ensures ret == if old(owner) == p then RET_ALREADY_LOCKED else RET_OK
      ensures old(owner) == p ==> Snapshot() == old(Snapshot()) && signalled == []
      ensures old(owner) != p ==> LoopOutcome(p, LockType.LongLock, rounds, Snapshot(), signalled)
    {
      if p == owner {
        return RET_ALREADY_LOCKED, [];
      }
      var dropped;
      dropped, signalled := LockPrivate(p, LockType.LongLock, rounds);
      ret := RET_OK;
    }
  }
}
