/**
 Register by register, what a block transfer does, stated in the user's byte order. A block of n
 registers that meets an unreachable user address is the block of the registers before it.
 */
module TransferMeaning {
  import opened RegisterWords
  import opened TransferSpec

  function Reg(m: seq<bv8>, off: nat, w: Width): (r: seq<bv8>)
    requires off + w <= |m|
    ensures |r| == w
  {
    m[off..off + w]
  }

  ghost predicate SameOutside(m: seq<bv8>, m': seq<bv8>, lo: nat, hi: nat) {
    |m'| == |m| && forall i :: 0 <= i < |m| && !(lo <= i < hi) ==> m'[i] == m[i]
  }

  lemma RegOutside(m: seq<bv8>, m': seq<bv8>, lo: nat, hi: nat, at: nat, w: Width)
    requires SameOutside(m, m', lo, hi) && at + w <= |m| && (at + w <= lo || hi <= at)
    ensures Reg(m', at, w) == Reg(m, at, w)
  {
  }

  // ----- byte order -----

  lemma ViewTwice(swap: bool, b: seq<bv8>)
    ensures View(swap, View(swap, b)) == b
  {
  }

  lemma ViewCommutes(swap: bool, d: seq<bv8>, k: seq<bv8>, p: seq<bv8>)
    requires |d| == |k| == |p|
    ensures View(swap, SetBits(View(swap, d), View(swap, k), p)) == SetBits(d, k, View(swap, p))
    ensures View(swap, ToggleBits(View(swap, k), p)) == ToggleBits(k, View(swap, p))
  {
    hide SetByte, ToggleByte;
  }

  lemma ViewOnes(swap: bool, w: Width)
    ensures View(swap, Ones(w)) == Ones(w)
  {
  }

  lemma LoadTmpLow(u: UserMem, from: bool, ptr: nat, w: Width, swap: bool, tmp: Word)
    requires from ==> Readable(u, ptr, w)
    ensures LoadTmp(u, from, ptr, w, swap, tmp)[..w] == View(swap, if from then Fetch(u, ptr, w) else tmp[..w])
  {
    var t := if from then Patch(tmp, Fetch(u, ptr, w)) else tmp;
    assert t[..w] == if from then Fetch(u, ptr, w) else tmp[..w];
    SwapTmpReverses(w, t);
  }

  // ----- writes -----

  /** The user's mask for a register: all ones when no mask was given. */
  function MaskAt(j: WriteJob, mptr: nat): (k: seq<bv8>)
    requires j.hasMask ==> Readable(j.u, mptr, j.w)
    ensures |k| == j.w
  {
    if j.hasMask then Fetch(j.u, mptr, j.w) else Ones(j.w)
  }

  /** A request whose every register value is determined by the user: data given, or a toggle that needs none. */
  predicate Determined(j: WriteJob, s: Writing) {
    && IsWrite(j.mode)
    && (j.hasData || j.mode == MTCA_SWAP_BITS)
    && (j.hasMask || s.mask[..j.w] == Ones(j.w))
  }

  /** What the user asks a register to become, given what the user sees in it. */
  function Asked(j: WriteJob, dptr: nat, mptr: nat, seen: seq<bv8>): (r: seq<bv8>)
    requires Feasible(j, dptr, mptr) && |seen| == j.w && IsWrite(j.mode) && (j.hasData || j.mode == MTCA_SWAP_BITS)
    ensures |r| == j.w
  {
    if j.mode == MTCA_SIMPLE_WRITE then Fetch(j.u, dptr, j.w)
    else if j.mode == MTCA_SET_BITS then SetBits(Fetch(j.u, dptr, j.w), MaskAt(j, mptr), seen)
    else ToggleBits(MaskAt(j, mptr), seen)
  }

  /** Registers before the first unreachable user word. */
  function Leading(j: WriteJob, dptr: nat, mptr: nat, n: nat): (c: nat)
    ensures c <= n
    ensures c < n ==> !Feasible(j, dptr + Span(j.w, c), mptr + Span(j.w, c))
    decreases n
  {
    if n == 0 || !Feasible(j, dptr, mptr) then 0 else 1 + Leading(j, dptr + j.w, mptr + j.w, n - 1)
  }

  lemma {:induction false} LeadingFeasible(j: WriteJob, dptr: nat, mptr: nat, n: nat, i: nat)
    requires i < Leading(j, dptr, mptr, n)
    ensures Feasible(j, dptr + Span(j.w, i), mptr + Span(j.w, i))
    decreases n
  {
    if i > 0 {
      LeadingFeasible(j, dptr + j.w, mptr + j.w, n - 1, i - 1);
    }
  }

  /** One register was written as asked and nothing else changed. */
  ghost predicate OneWritten(j: WriteJob, s: Writing, s': Writing) {
    && s.off + j.w <= |s.bytes| == |s'.bytes| && Feasible(j, s.dptr, s.mptr)
    && IsWrite(j.mode) && (j.hasData || j.mode == MTCA_SWAP_BITS)
    && s'.status.Going? && s'.off == s.off + j.w && s'.dptr == s.dptr + j.w && s'.mptr == s.mptr + j.w
    && SameOutside(s.bytes, s'.bytes, s.off, s.off + j.w)
    && View(j.swap, Reg(s'.bytes, s.off, j.w)) == Asked(j, s.dptr, s.mptr, View(j.swap, Reg(s.bytes, s.off, j.w)))
  }

  lemma StoreFrame(m: seq<bv8>, a: nat, w: Width, b: seq<bv8>)
    requires |b| == w && a + w <= |m|
    ensures Reg(Store(m, a, b), a, w) == b
    ensures SameOutside(m, Store(m, a, b), a, a + w)
  {
  }

  /** The bytes a round writes, in the device's byte order. */
  lemma OneWriteBytes(j: WriteJob, s: Writing)
    requires s.status.Going? && s.off + j.w <= |s.bytes| && Determined(j, s) && Feasible(j, s.dptr, s.mptr)
    ensures var s' := WriteOne(j, s);
      && s'.status.Going? && s'.off == s.off + j.w && s'.dptr == s.dptr + j.w && s'.mptr == s.mptr + j.w
      && (j.hasMask || s'.mask[..j.w] == Ones(j.w))
    ensures WriteOne(j, s).bytes ==
            Store(s.bytes, s.off, RegisterAfter(j.mode, View(j.swap, DataAt(j, s)), View(j.swap, MaskAt(j, s.mptr)),
                                                Reg(s.bytes, s.off, j.w)))
  {
    LoadTmpLow(j.u, j.hasData, s.dptr, j.w, j.swap, s.data);
    LoadTmpLow(j.u, j.hasMask, s.mptr, j.w, j.swap, s.mask);
    ViewOnes(j.swap, j.w);
  }

  function DataAt(j: WriteJob, s: Writing): (d: seq<bv8>)
    requires j.hasData ==> Readable(j.u, s.dptr, j.w)
    ensures |d| == j.w
  {
    if j.hasData then Fetch(j.u, s.dptr, j.w) else s.data[..j.w]
  }

  lemma AskedFromDevice(j: WriteJob, s: Writing, prev: seq<bv8>)
    requires Determined(j, s) && Feasible(j, s.dptr, s.mptr) && |prev| == j.w
    ensures View(j.swap, RegisterAfter(j.mode, View(j.swap, DataAt(j, s)), View(j.swap, MaskAt(j, s.mptr)), prev)) ==
            Asked(j, s.dptr, s.mptr, View(j.swap, prev))
  {
    hide View, SetBits, ToggleBits;
    ViewCommutes(j.swap, DataAt(j, s), MaskAt(j, s.mptr), prev);
    ViewTwice(j.swap, DataAt(j, s));
  }

  lemma OneWriteAsked(j: WriteJob, s: Writing)
    requires s.status.Going? && s.off + j.w <= |s.bytes| && Determined(j, s) && Feasible(j, s.dptr, s.mptr)
    ensures OneWritten(j, s, WriteOne(j, s)) && Determined(j, WriteOne(j, s))
  {
    var prev := Reg(s.bytes, s.off, j.w);
    OneWriteBytes(j, s);
    hide WriteOne, View, Asked, RegisterAfter, SameOutside, Store;
    var b := RegisterAfter(j.mode, View(j.swap, DataAt(j, s)), View(j.swap, MaskAt(j, s.mptr)), prev);
    StoreFrame(s.bytes, s.off, j.w, b);
    AskedFromDevice(j, s, prev);
  }

  /** Register i of the block holds what the user asked for. */
  predicate WrittenAt(j: WriteJob, s: Writing, m: seq<bv8>, i: nat) {
    var at := Span(j.w, i);
    && s.off + at + j.w <= |s.bytes| == |m|
    && Feasible(j, s.dptr + at, s.mptr + at) && IsWrite(j.mode) && (j.hasData || j.mode == MTCA_SWAP_BITS)
    && View(j.swap, Reg(m, s.off + at, j.w)) ==
       Asked(j, s.dptr + at, s.mptr + at, View(j.swap, Reg(s.bytes, s.off + at, j.w)))
  }

  lemma {:induction false} StoppedWrite(j: WriteJob, s: Writing, n: nat)
    requires !s.status.Going? && s.off + Span(j.w, n) <= |s.bytes|
    ensures WriteLoop(j, s, n) == s
    decreases n
  {
    if n > 0 {
      StoppedWrite(j, s, n - 1);
    }
  }

  ghost predicate BlockWritten(j: WriteJob, s: Writing, r: Writing, n: nat) {
    var c := Leading(j, s.dptr, s.mptr, n);
    && r.off == s.off + Span(j.w, c)
    && (r.status.Going? <==> c == n) && !r.status.LinkLost?
    && SameOutside(s.bytes, r.bytes, s.off, r.off)
    && (forall i: nat :: i < c ==> WrittenAt(j, s, r.bytes, i))
  }

  lemma FirstWritten(j: WriteJob, s: Writing, s': Writing, m: seq<bv8>)
    requires OneWritten(j, s, s') && SameOutside(s'.bytes, m, s'.off, |m|)
    ensures WrittenAt(j, s, m, 0)
  {
    RegOutside(s'.bytes, m, s'.off, |m|, s.off, j.w);
    hide View, Asked, Reg, SameOutside, Feasible;
  }

  lemma LaterWritten(j: WriteJob, s: Writing, s': Writing, m: seq<bv8>, i: nat)
    requires OneWritten(j, s, s') && 0 < i && WrittenAt(j, s', m, i - 1)
    ensures WrittenAt(j, s, m, i)
  {
    hide View, Asked, Reg, SameOutside, Feasible;
    var at := Span(j.w, i);
    assert at == j.w + Span(j.w, i - 1);
    assert s'.off + Span(j.w, i - 1) == s.off + at;
    assert s'.dptr + Span(j.w, i - 1) == s.dptr + at && s'.mptr + Span(j.w, i - 1) == s.mptr + at;
    hide Span;
    RegOutside(s.bytes, s'.bytes, s.off, s.off + j.w, s.off + at, j.w);
  }

  lemma SameUnion(m: seq<bv8>, m': seq<bv8>, m'': seq<bv8>, lo: nat, mid: nat, hi: nat)
    requires SameOutside(m, m', lo, mid) && SameOutside(m', m'', mid, hi) && lo <= mid <= hi
    ensures SameOutside(m, m'', lo, hi)
    ensures SameOutside(m', m'', mid, |m''|)
  {
  }

  lemma BlockStep(j: WriteJob, s: Writing, s': Writing, r: Writing, n: nat)
    requires 0 < n && OneWritten(j, s, s') && BlockWritten(j, s', r, n - 1)
    ensures BlockWritten(j, s, r, n)
  {
    var c := Leading(j, s.dptr, s.mptr, n);
    assert c == 1 + Leading(j, s'.dptr, s'.mptr, n - 1);
    SameUnion(s.bytes, s'.bytes, r.bytes, s.off, s'.off, r.off);
    hide Leading, WrittenAt, Feasible, View, Asked, Reg;
    forall i: nat | i < c ensures WrittenAt(j, s, r.bytes, i) {
      if i == 0 {
        FirstWritten(j, s, s', r.bytes);
      } else {
        LaterWritten(j, s, s', r.bytes, i);
      }
    }
  }

  /**
   A write transfers exactly the registers before the first unreachable user word; each becomes what
   the user asked for in the user's byte order, with swap on or off, and no other byte changes.
   */
  lemma {:induction false} WriteMeaning(j: WriteJob, s: Writing, n: nat)
    requires s.status.Going? && s.off + Span(j.w, n) <= |s.bytes| && Determined(j, s)
    ensures BlockWritten(j, s, WriteLoop(j, s, n), n)
    decreases n
  {
    hide WriteOne, BlockWritten, Feasible, Determined;
    if n == 0 {
      NoneWritten(j, s, 0);
    } else if !Feasible(j, s.dptr, s.mptr) {
      OneWriteStops(j, s);
      StoppedWrite(j, WriteOne(j, s), n - 1);
      NoneWritten(j, s, n);
    } else {
      var s' := WriteOne(j, s);
      OneWriteAsked(j, s);
      WriteMeaning(j, s', n - 1);
      BlockStep(j, s, s', WriteLoop(j, s', n - 1), n);
    }
  }

  lemma OneWriteStops(j: WriteJob, s: Writing)
    requires s.status.Going? && s.off + j.w <= |s.bytes| && !Feasible(j, s.dptr, s.mptr)
    ensures var r := WriteOne(j, s); r.status.Faulted? && r.off == s.off && r.bytes == s.bytes
  {
  }

  lemma NoneWritten(j: WriteJob, s: Writing, n: nat)
    requires s.status.Going? && s.off + Span(j.w, n) <= |s.bytes| && (n > 0 ==> !Feasible(j, s.dptr, s.mptr))
    ensures n == 0 ==> BlockWritten(j, s, s, n)
    ensures n > 0 ==> BlockWritten(j, s, WriteOne(j, s), n)
  {
    if n > 0 {
      OneWriteStops(j, s);
    }
    hide WriteOne, Feasible, WrittenAt;
  }

  // ----- reads -----

  ghost predicate SameCells(u: UserMem, u': UserMem, lo: nat, hi: nat) {
    u'.Keys == u.Keys && forall i :: i in u && !(lo <= i < hi) ==> u'[i] == u[i]
  }

  /** Word i of the user's buffer shows register i in the user's byte order. */
  predicate ShownAt(j: ReadJob, s: Reading, u: UserMem, i: nat) {
    var at := Span(j.w, i);
    && s.off + at + j.w <= |j.m| && Readable(u, s.ptr + at, j.w)
    && Fetch(u, s.ptr + at, j.w) == View(j.swap, Reg(j.m, s.off + at, j.w))
  }

  /** c registers were read into the buffer, and the reason why not more. */
  ghost predicate BlockRead(j: ReadJob, s: Reading, r: Reading, n: nat, c: nat) {
    && c <= n && s.off + Span(j.w, n) <= |j.m|
    && r.off == s.off + Span(j.w, c)
    && (if j.toUser then SameCells(s.user, r.user, s.ptr, s.ptr + Span(j.w, c)) else r.user == s.user)
    && (j.toUser ==> forall i: nat :: i < c ==> ShownAt(j, s, r.user, i))
    && (r.status.Going? <==> c == n)
    && (r.status.Faulted? ==> j.toUser && !Readable(s.user, s.ptr + Span(j.w, c), j.w))
    && (r.status.LinkLost? ==>
          j.linkDown && s.off + Span(j.w, c) + j.w <= |j.m| && Reg(j.m, s.off + Span(j.w, c), j.w) == Ones(j.w))
  }

  /** One register was read as the user shall see it. */
  ghost predicate OneShown(j: ReadJob, s: Reading, s': Reading) {
    && s'.status.Going? && s'.off == s.off + j.w && s'.ptr == s.ptr + j.w && s.off + j.w <= |j.m|
    && (if j.toUser then SameCells(s.user, s'.user, s.ptr, s.ptr + j.w) else s'.user == s.user)
    && (j.toUser ==> Readable(s'.user, s.ptr, j.w) && Fetch(s'.user, s.ptr, j.w) == View(j.swap, Reg(j.m, s.off, j.w)))
  }

  lemma PutFetch(u: UserMem, p: nat, b: seq<bv8>)
    requires Readable(u, p, |b|)
    ensures Readable(Put(u, p, b), p, |b|) && Fetch(Put(u, p, b), p, |b|) == b
    ensures SameCells(u, Put(u, p, b), p, p + |b|)
  {
  }

  lemma PatchedLow(w: Width, tmp: Word, b: seq<bv8>, swap: bool)
    requires |b| == w
    ensures var t := Patch(tmp, b); (if swap then SwapTmp(w, t) else t)[..w] == View(swap, b)
  {
    assert Patch(tmp, b)[..w] == b;
    SwapTmpReverses(w, Patch(tmp, b));
  }

  lemma OneReadShown(j: ReadJob, s: Reading)
    requires s.status.Going? && s.off + j.w <= |j.m| && ReadOne(j, s).status.Going?
    ensures OneShown(j, s, ReadOne(j, s))
  {
    var b := Reg(j.m, s.off, j.w);
    PatchedLow(j.w, s.tmp, b, j.swap);
    if j.toUser {
      PutFetch(s.user, s.ptr, View(j.swap, b));
    }
    hide SameCells, Put, Fetch, View, SwapTmp, Patch, AllOnes;
  }

  lemma OneReadStops(j: ReadJob, s: Reading)
    requires s.status.Going? && s.off + j.w <= |j.m| && !ReadOne(j, s).status.Going?
    ensures var r := ReadOne(j, s);
      && r.off == s.off && r.user == s.user
      && (r.status.Faulted? ==> j.toUser && !Readable(s.user, s.ptr, j.w))
      && (r.status.LinkLost? ==> j.linkDown && Reg(j.m, s.off, j.w) == Ones(j.w))
  {
    assert Patch(s.tmp, Reg(j.m, s.off, j.w))[..j.w] == Reg(j.m, s.off, j.w);
    assert AllOnes(j.w)[..j.w] == Ones(j.w);
  }

  lemma {:induction false} StoppedRead(j: ReadJob, s: Reading, n: nat)
    requires !s.status.Going? && s.off + Span(j.w, n) <= |j.m|
    ensures ReadLoop(j, s, n) == s
    decreases n
  {
    if n > 0 {
      StoppedRead(j, s, n - 1);
    }
  }

  lemma FetchOutside(u: UserMem, u': UserMem, lo: nat, hi: nat, p: nat, n: nat)
    requires SameCells(u, u', lo, hi) && Readable(u, p, n) && (p + n <= lo || hi <= p)
    ensures Readable(u', p, n) && Fetch(u', p, n) == Fetch(u, p, n)
  {
  }

  lemma ShownShift(j: ReadJob, s: Reading, s': Reading, u: UserMem, i: nat)
    requires OneShown(j, s, s') && j.toUser && 0 < i && ShownAt(j, s', u, i - 1)
    ensures ShownAt(j, s, u, i)
  {
    hide View, Fetch, Readable, Reg, SameCells;
    assert s'.off + Span(j.w, i - 1) == s.off + Span(j.w, i);
    assert s'.ptr + Span(j.w, i - 1) == s.ptr + Span(j.w, i);
  }

  lemma CellsUnion(u: UserMem, u': UserMem, u'': UserMem, lo: nat, mid: nat, hi: nat)
    requires SameCells(u, u', lo, mid) && SameCells(u', u'', mid, hi) && lo <= mid <= hi
    ensures SameCells(u, u'', lo, hi)
  {
  }

  lemma FirstShown(j: ReadJob, s: Reading, s': Reading, r: Reading, hi: nat)
    requires OneShown(j, s, s') && j.toUser && SameCells(s'.user, r.user, s'.ptr, hi)
    ensures ShownAt(j, s, r.user, 0)
  {
    hide View, Fetch, Readable, Reg, SameCells;
    FetchOutside(s'.user, r.user, s'.ptr, hi, s.ptr, j.w);
  }

  lemma AllShown(j: ReadJob, s: Reading, s': Reading, r: Reading, c: nat)
    requires OneShown(j, s, s') && j.toUser && SameCells(s'.user, r.user, s'.ptr, s'.ptr + Span(j.w, c))
    requires forall i: nat :: i < c ==> ShownAt(j, s', r.user, i)
    ensures forall i: nat :: i < c + 1 ==> ShownAt(j, s, r.user, i)
    ensures SameCells(s.user, r.user, s.ptr, s.ptr + j.w + Span(j.w, c))
  {
    hide Span, ShownAt, SameCells, Fetch, Readable, Reg, View;
    CellsUnion(s.user, s'.user, r.user, s.ptr, s'.ptr, s.ptr + j.w + Span(j.w, c));
    forall i: nat | i < c + 1 ensures ShownAt(j, s, r.user, i) {
      if i == 0 {
        FirstShown(j, s, s', r, s'.ptr + Span(j.w, c));
      } else {
        ShownShift(j, s, s', r.user, i);
      }
    }
  }

  lemma ReadBlockStep(j: ReadJob, s: Reading, s': Reading, r: Reading, n: nat, c: nat)
    requires 0 < n && OneShown(j, s, s') && BlockRead(j, s', r, n - 1, c)
    ensures BlockRead(j, s, r, n, c + 1)
  {
    hide ShownAt, SameCells, Fetch, Readable, Reg, View;
    assert Span(j.w, c + 1) == j.w + Span(j.w, c) && Span(j.w, n) == j.w + Span(j.w, n - 1);
    if j.toUser {
      AllShown(j, s, s', r, c);
      if r.status.Faulted? {
        SameDomain(s.user, s'.user, s.ptr, s'.ptr);
        SameReach(s.user, s'.user, s.ptr + Span(j.w, c + 1), j.w);
      }
    }
  }

  lemma SameDomain(u: UserMem, u': UserMem, lo: nat, hi: nat)
    requires SameCells(u, u', lo, hi)
    ensures u'.Keys == u.Keys
  {
  }

  lemma SameReach(u: UserMem, u': UserMem, p: nat, n: nat)
    requires u.Keys == u'.Keys
    ensures Readable(u, p, n) <==> Readable(u', p, n)
  {
  }

  lemma NoneRead(j: ReadJob, s: Reading)
    requires s.status.Going? && s.off <= |j.m|
    ensures BlockRead(j, s, s, 0, 0)
  {
  }

  lemma NoneBeforeStop(j: ReadJob, s: Reading, n: nat)
    requires 0 < n && s.status.Going? && s.off + Span(j.w, n) <= |j.m| && !ReadOne(j, s).status.Going?
    ensures BlockRead(j, s, ReadOne(j, s), n, 0)
  {
    OneReadStops(j, s);
    hide ReadOne, Reg, Ones, Readable;
  }

  /**
   A read shows each register it completes in the user's byte order and changes no other user byte.
   It stops early only at an unreachable user word, or at an all-ones register with the link down.
   */
  lemma {:induction false} ReadMeaning(j: ReadJob, s: Reading, n: nat) returns (c: nat)
    requires s.status.Going? && s.off + Span(j.w, n) <= |j.m|
    ensures BlockRead(j, s, ReadLoop(j, s, n), n, c)
    decreases n
  {
    hide ReadOne, BlockRead, SameCells;
    if n == 0 {
      NoneRead(j, s);
      c := 0;
    } else {
      var s' := ReadOne(j, s);
      if s'.status.Going? {
        OneReadShown(j, s);
        c := ReadMeaning(j, s', n - 1);
        ReadBlockStep(j, s, s', ReadLoop(j, s', n - 1), n, c);
        c := c + 1;
      } else {
        NoneBeforeStop(j, s, n);
        OneReadStops(j, s);
        StoppedRead(j, s', n - 1);
        c := 0;
      }
    }
  }

  /** With the link up, a read is complete unless it meets an unreachable user word. */
  lemma ReadComplete(j: ReadJob, s: Reading, n: nat)
    requires s.status.Going? && s.off + Span(j.w, n) <= |j.m| && !j.linkDown
    requires j.toUser ==> forall i: nat :: i < n ==> Readable(s.user, s.ptr + Span(j.w, i), j.w)
    ensures BlockRead(j, s, ReadLoop(j, s, n), n, n)
  {
    var c := ReadMeaning(j, s, n);
  }
}
