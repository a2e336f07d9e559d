/**
 A vector call is its requests carried out one at a time, in order, up to the first one that cannot be fetched.
 */
module VectorLaws {
  import opened RegisterWords
  import opened TransferSpec
  import opened TransferLaws
  import opened TransferMeaning
  import opened TransferCalls
  import opened VectorSpec

  // ----- what a request may change in user memory -----

  lemma {:induction false} SpanAtMost(w: Width, c: nat, n: nat)
    requires c <= n
    ensures Span(w, c) <= Span(w, n)
  {
    SpanSum(w, c, n - c);
  }

  /** Only the given number of bytes from ptr on may differ, and none without a buffer. */
  ghost predicate OnlyBuffer(u: UserMem, u': UserMem, ptr: nat, bytes: nat) {
    SameCells(u, u', ptr, ptr + bytes) && (ptr == 0 ==> u' == u)
  }

  lemma LoopFrame(j: ReadJob, s: Reading, n: nat, count: nat)
    requires s.status.Going? && s.off + Span(j.w, n) <= |j.m| && n <= count && (j.toUser <==> s.ptr != 0)
    ensures OnlyBuffer(s.user, ReadLoop(j, s, n).user, s.ptr, Span(j.w, count))
  {
    hide ReadLoop, Span, ShownAt, Reg, Readable;
    var c := ReadMeaning(j, s, n);
    SpanAtMost(j.w, c, count);
  }

  /** A read changes nothing outside its buffer of width times count bytes. */
  lemma ReadFrame(d: Dev, size: RegSize, bar: nat, off: nat, u: UserMem, ptr: nat, count: nat, stale: Stale)
    requires DevOk(d) && ScratchInRange(d) && bar < NUMBER_OF_BARS
    ensures OnlyBuffer(u, ReadInline(d, size, bar, off, u, ptr, count, stale).user, ptr, Span(Bytes(size), count))
  {
    hide ReadLoop, LinkDown, ScratchInRange, Span;
    if Accepted(d, size, bar, off) && 0 < Count(d, size, bar, off, count) {
      hide OnlyBuffer, ReadInline, Rejected, DevOk;
      ReadCall(d, size, bar, off, u, ptr, count, stale);
      LoopFrame(ReadJobOf(d, size, bar, ptr, stale), Reading(off, ptr, u, stale.tmp, Going), Count(d, size, bar, off, count), count);
    }
  }

  /** The size of the user buffer a request asks for, on a device with the given register size. */
  function BufferBytes(q: Request, default: RegSize): nat {
    Span(Bytes(CorrectSize(q.size, default)), q.count)
  }

  ghost predicate OnlyRequested(q: Request, default: RegSize, u: UserMem, u': UserMem) {
    if q.mode < MTCA_SIMPLE_WRITE then OnlyBuffer(u, u', q.data, BufferBytes(q, default)) else u' == u
  }

  lemma SingleFrame(s: Session, q: Request, stale: Stale)
    requires Ready(s) && q.bar < NUMBER_OF_BARS
    ensures OnlyRequested(q, s.dev.size, s.user, Single(s, q, stale).user)
    ensures Single(s, q, stale).user.Keys == s.user.Keys
  {
    hide ReadInline, WriteInline, ScratchInRange, DevOk, Span;
    if q.mode < MTCA_SIMPLE_WRITE {
      ReadFrame(s.dev, CorrectSize(q.size, s.dev.size), q.bar, q.offset, s.user, q.data, q.count, stale);
    }
  }

  // ----- the loop is its requests, one at a time -----

  /** Taking a request off the front or the back is the same. */
  lemma {:induction false} OneByOneFront(s: Session, q: Request, qs: seq<Request>, stales: seq<Stale>)
    requires RunOk(s, [q] + qs, stales)
    ensures q.bar < NUMBER_OF_BARS && RunOk(Perform(s, q, stales[0]), qs, stales[1..])
    ensures OneByOne(s, [q] + qs, stales) == OneByOne(Perform(s, q, stales[0]), qs, stales[1..])
    decreases |qs|
  {
    hide Perform, Single, Ready;
    assert ([q] + qs)[0] == q;
    assert forall i :: 0 <= i < |qs| ==> ([q] + qs)[i + 1] == qs[i];
    var k := |qs| - 1;
    if qs == [] {
      assert [q] + qs == [q] && [q][..0] == [];
      assert OneByOne(s, [], stales) == s;
    } else {
      assert ([q] + qs)[..|qs|] == [q] + qs[..k];
      OneByOneFront(s, q, qs[..k], stales);
      assert stales[1..][k] == stales[|qs|];
    }
  }

  /** A vector call is its requests one at a time; each is fetched from what the earlier ones left. */
  lemma {:induction false} VectorIsOneByOne(s: Session, ptr: nat, stales: seq<Stale>)
    requires Ready(s) && BarsOk(s, ptr, stales)
    ensures VectorLoop(s, ptr, stales) == OneByOne(s, Taken(s, ptr, stales), stales)
    decreases |stales|
  {
    hide Perform, Ready, Next;
    if stales != [] && Fetchable(s, ptr) {
      var q := Next(s, ptr);
      var s' := Perform(s, q, stales[0]);
      VectorIsOneByOne(s', ptr + REQUEST_BYTES, stales[1..]);
      OneByOneFront(s, q, Taken(s', ptr + REQUEST_BYTES, stales[1..]), stales);
    }
  }

  lemma KeysKept(s: Session, q: Request, stale: Stale)
    requires Ready(s) && q.bar < NUMBER_OF_BARS
    ensures Perform(s, q, stale).user.Keys == s.user.Keys
  {
    hide Single, Ready;
    SingleFrame(s, q, stale);
  }

  lemma {:induction false} SameReachable(u: UserMem, u': UserMem, ptr: nat, n: nat)
    requires u.Keys == u'.Keys
    ensures Reachable(u, ptr, n) == Reachable(u', ptr, n)
    decreases n
  {
    if n > 0 {
      SameReach(u, u', ptr, REQUEST_BYTES);
      SameReachable(u, u', ptr + REQUEST_BYTES, n - 1);
    }
  }

  /** The call stops exactly at the first request outside the caller's memory, whatever earlier reads wrote. */
  lemma {:induction false} VectorStops(s: Session, ptr: nat, stales: seq<Stale>)
    requires Ready(s) && BarsOk(s, ptr, stales)
    ensures |Taken(s, ptr, stales)| == Reachable(s.user, ptr, |stales|)
    decreases |stales|
  {
    hide Perform, Ready, Next;
    if stales != [] && Fetchable(s, ptr) {
      var s' := Perform(s, Next(s, ptr), stales[0]);
      KeysKept(s, Next(s, ptr), stales[0]);
      SameReachable(s.user, s'.user, ptr + REQUEST_BYTES, |stales| - 1);
      VectorStops(s', ptr + REQUEST_BYTES, stales[1..]);
    }
  }

  // ----- the returned sum -----

  lemma WrapAdds(a: int, b: int)
    ensures Wrap32(Wrap32(a) + b) == Wrap32(a + b)
  {
    var x := a + 0x8000_0000;
    assert x == TWO32 * (x / TWO32) + x % TWO32;
    var y := Wrap32(a) + b + 0x8000_0000;
    assert y == a + b + 0x8000_0000 - TWO32 * (x / TWO32);
    ShiftMod(y, x / TWO32);
  }

  lemma WrapZero()
    ensures Wrap32(0) == 0
  {
  }

  lemma ShiftMod(y: int, k: int)
    ensures (y + TWO32 * k) % TWO32 == y % TWO32
  {
    var z := y + TWO32 * k;
    assert z == TWO32 * (y / TWO32 + k) + y % TWO32;
    assert z / TWO32 == y / TWO32 + k;
  }

  lemma {:induction false} OneByOneTotal(s: Session, qs: seq<Request>, stales: seq<Stale>)
    requires RunOk(s, qs, stales) && Wrap32(s.ret) == s.ret
    ensures OneByOne(s, qs, stales).ret == Wrap32(s.ret + Sum(Results(s, qs, stales)))
    decreases |qs|
  {
    hide Single, Ready, Wrap32;
    if qs != [] {
      var k := |qs| - 1;
      OneByOneTotal(s, qs[..k], stales);
      var mid := OneByOne(s, qs[..k], stales);
      var r := Single(mid, qs[k], stales[k]).ret;
      var rs := Results(s, qs[..k], stales);
      assert (rs + [r])[..k] == rs;
      WrapAdds(s.ret + Sum(rs), r);
    }
  }

  /** The call returns the sum of the single results, error codes included, in a C int. */
  lemma VectorTotal(s: Session, ptr: nat, stales: seq<Stale>)
    requires Ready(s) && BarsOk(s, ptr, stales) && s.ret == 0
    ensures VectorLoop(s, ptr, stales).ret == Wrap32(Sum(Results(s, Taken(s, ptr, stales), stales)))
  {
    hide VectorLoop, OneByOne, Results, Taken, Wrap32, Sum, Ready, BarsOk;
    WrapZero();
    VectorIsOneByOne(s, ptr, stales);
    OneByOneTotal(s, Taken(s, ptr, stales), stales);
  }

  // ----- tables that no request overwrites -----

  /** The table as it stands in memory, up to the first request that cannot be fetched. */
  function Table(u: UserMem, ptr: nat, n: nat): (qs: seq<Request>)
    ensures |qs| <= n
    decreases n
  {
    if n == 0 || !Readable(u, ptr, REQUEST_BYTES) then []
    else [Decode(Fetch(u, ptr, REQUEST_BYTES))] + Table(u, ptr + REQUEST_BYTES, n - 1)
  }

  /** A request that writes to no user address in lo..hi. */
  predicate Apart(q: Request, default: RegSize, lo: nat, hi: nat) {
    q.mode >= MTCA_SIMPLE_WRITE || q.data == 0 || q.data + BufferBytes(q, default) <= lo || hi <= q.data
  }

  ghost predicate Agree(u: UserMem, u': UserMem, lo: nat, hi: nat) {
    u'.Keys == u.Keys && forall i :: i in u && lo <= i < hi ==> u'[i] == u[i]
  }

  lemma AgreeAfter(u: UserMem, s: Session, q: Request, stale: Stale, lo: nat, hi: nat)
    requires Ready(s) && q.bar < NUMBER_OF_BARS && Apart(q, s.dev.size, lo, hi) && Agree(u, s.user, lo, hi)
    ensures Agree(u, Perform(s, q, stale).user, lo, hi) && Perform(s, q, stale).dev.size == s.dev.size
  {
    hide Single, Ready, BufferBytes;
    SingleFrame(s, q, stale);
    SingleKeeps(s, q, stale);
  }

  lemma AgreeFetch(u: UserMem, u': UserMem, lo: nat, hi: nat, n: nat)
    requires Agree(u, u', lo, hi) && lo + n <= hi
    ensures Readable(u, lo, n) <==> Readable(u', lo, n)
    ensures Readable(u, lo, n) ==> Fetch(u, lo, n) == Fetch(u', lo, n)
    ensures Agree(u, u', lo + n, hi)
  {
  }

  /** A request of a table that can be carried out and leaves the entries from lo to hi alone. */
  predicate Usable(q: Request, default: RegSize, lo: nat, hi: nat) {
    q.bar < NUMBER_OF_BARS && Apart(q, default, lo, hi)
  }

  /** No request of the table reads into a later entry. */
  ghost predicate TableUsable(qs: seq<Request>, default: RegSize, ptr: nat, hi: nat) {
    forall i :: 0 <= i < |qs| ==> Usable(qs[i], default, ptr + REQUEST_BYTES * (i + 1), hi)
  }

  lemma RestUsable(q: Request, qs: seq<Request>, default: RegSize, ptr: nat, hi: nat)
    requires TableUsable([q] + qs, default, ptr, hi)
    ensures Usable(q, default, ptr + REQUEST_BYTES, hi) && TableUsable(qs, default, ptr + REQUEST_BYTES, hi)
  {
    hide Usable;
    assert ([q] + qs)[0] == q;
    forall i | 0 <= i < |qs| ensures Usable(qs[i], default, ptr + REQUEST_BYTES + REQUEST_BYTES * (i + 1), hi) {
      assert ([q] + qs)[i + 1] == qs[i];
      assert ptr + REQUEST_BYTES + REQUEST_BYTES * (i + 1) == ptr + REQUEST_BYTES * (i + 2);
    }
  }

  lemma {:induction false} TableTaken(u: UserMem, s: Session, ptr: nat, stales: seq<Stale>, hi: nat)
    requires Ready(s) && Agree(u, s.user, ptr, hi) && ptr + REQUEST_BYTES * |stales| <= hi
    requires TableUsable(Table(u, ptr, |stales|), s.dev.size, ptr, hi)
    ensures BarsOk(s, ptr, stales) && Taken(s, ptr, stales) == Table(u, ptr, |stales|)
    decreases |stales|
  {
    hide Perform, Ready, Agree, Readable, Fetch, Decode, Apart, TableUsable;
    if stales != [] {
      AgreeFetch(u, s.user, ptr, hi, REQUEST_BYTES);
      if Fetchable(s, ptr) {
        var q, rest := Next(s, ptr), Table(u, ptr + REQUEST_BYTES, |stales| - 1);
        assert Table(u, ptr, |stales|) == [q] + rest;
        RestUsable(q, rest, s.dev.size, ptr, hi);
        AgreeAfter(u, s, q, stales[0], ptr + REQUEST_BYTES, hi);
        TableTaken(u, Perform(s, q, stales[0]), ptr + REQUEST_BYTES, stales[1..], hi);
      }
    }
  }

  /**
   When no request of the table reads into a later entry, the call does what the requests standing in memory at its
   start do one at a time, and returns the sum of their results.
   */
  lemma StaticVector(s: Session, ptr: nat, stales: seq<Stale>)
    requires Ready(s) && s.ret == 0
    requires TableUsable(Table(s.user, ptr, |stales|), s.dev.size, ptr, ptr + REQUEST_BYTES * |stales|)
    ensures var t := Table(s.user, ptr, |stales|);
      && RunOk(s, t, stales) && BarsOk(s, ptr, stales)
      && VectorLoop(s, ptr, stales) == OneByOne(s, t, stales)
      && VectorLoop(s, ptr, stales).ret == Wrap32(Sum(Results(s, t, stales)))
  {
    hide Table, VectorLoop, OneByOne, Results, Taken, Wrap32, Sum, BarsOk, Ready, TableUsable;
    TableTaken(s.user, s, ptr, stales, ptr + REQUEST_BYTES * |stales|);
    VectorIsOneByOne(s, ptr, stales);
    VectorTotal(s, ptr, stales);
  }

  // ----- the split law -----

  /** One call for a table is a call for its front followed by a call for the rest, if the front gets through. */
  lemma {:induction false} VectorSplit(s: Session, ptr: nat, front: seq<Stale>, rest: seq<Stale>)
    requires Ready(s) && BarsOk(s, ptr, front + rest)
    ensures BarsOk(s, ptr, front)
    ensures var mid := VectorLoop(s, ptr, front);
      if |Taken(s, ptr, front)| < |front| then VectorLoop(s, ptr, front + rest) == mid
      else
        && BarsOk(mid, ptr + REQUEST_BYTES * |front|, rest)
        && VectorLoop(s, ptr, front + rest) == VectorLoop(mid, ptr + REQUEST_BYTES * |front|, rest)
    decreases |front|
  {
    hide Perform, Ready, Next;
    if front == [] {
      assert front + rest == rest;
    } else if Fetchable(s, ptr) {
      assert (front + rest)[0] == front[0] && (front + rest)[1..] == front[1..] + rest;
      var s' := Perform(s, Next(s, ptr), front[0]);
      VectorSplit(s', ptr + REQUEST_BYTES, front[1..], rest);
    }
  }
}
