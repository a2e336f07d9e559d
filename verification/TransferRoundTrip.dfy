/**
 Laws of whole calls that follow from the meaning of block transfers: the write-then-read round trip, and the
 algebra of masked writes.
 */
module TransferRoundTrip {
  import opened RegisterWords
  import opened TransferSpec
  import opened TransferMeaning
  import opened TransferTheorems
  import opened TransferCalls

  // ----- round trip -----

  /** n user words from p on can be reached. */
  ghost predicate WordsReadable(u: UserMem, p: nat, w: Width, n: nat) {
    forall i: nat :: i < n ==> Readable(u, p + Span(w, i), w)
  }

  /** The i-th register from off on holds the i-th user word from p on, in the user's byte order. */
  ghost predicate HoldsAt(m: seq<bv8>, off: nat, swap: bool, w: Width, u: UserMem, p: nat, i: nat) {
    var at := Span(w, i);
    off + at + w <= |m| && Readable(u, p + at, w) && View(swap, Reg(m, off + at, w)) == Fetch(u, p + at, w)
  }

  ghost predicate Holds(m: seq<bv8>, off: nat, swap: bool, w: Width, u: UserMem, p: nat, n: nat) {
    forall i: nat :: i < n ==> HoldsAt(m, off, swap, w, u, p, i)
  }

  /** The i-th word from p on in u is the i-th word from p' on in u'. */
  ghost predicate SameWord(w: Width, u: UserMem, p: nat, u': UserMem, p': nat, i: nat) {
    var at := Span(w, i);
    Readable(u, p + at, w) && Readable(u', p' + at, w) && Fetch(u, p + at, w) == Fetch(u', p' + at, w)
  }

  lemma HoldsBoth(m: seq<bv8>, off: nat, swap: bool, w: Width, u: UserMem, p: nat, u': UserMem, p': nat, i: nat)
    requires HoldsAt(m, off, swap, w, u, p, i) && HoldsAt(m, off, swap, w, u', p', i)
    ensures SameWord(w, u, p, u', p', i)
  {
    hide Readable, Fetch, View, Reg, Span;
  }

  lemma WrittenHolds(j: WriteJob, s: Writing, m: seq<bv8>, i: nat)
    requires WrittenAt(j, s, m, i) && j.mode == MTCA_SIMPLE_WRITE && j.hasData
    ensures HoldsAt(m, s.off, j.swap, j.w, j.u, s.dptr, i)
  {
    hide Readable, Fetch, View, Reg, Span, MaskAt;
  }

  lemma ShownHolds(j: ReadJob, s: Reading, u: UserMem, i: nat)
    requires ShownAt(j, s, u, i)
    ensures HoldsAt(j.m, s.off, j.swap, j.w, u, s.ptr, i)
  {
    hide Readable, Fetch, View, Reg, Span;
  }

  lemma {:induction false} NoneUnfeasible(j: WriteJob, dptr: nat, mptr: nat, n: nat)
    requires WordsReadable(j.u, dptr, j.w, n) && !j.hasMask
    ensures Leading(j, dptr, mptr, n) == n
  {
    var c := Leading(j, dptr, mptr, n);
    hide Leading, Readable, Span;
  }

  /** A block write of plain data stores every word. */
  lemma LoopStores(j: WriteJob, s: Writing, n: nat)
    requires j.mode == MTCA_SIMPLE_WRITE && j.hasData && !j.hasMask && s.status.Going? && s.mask == MASK_ALL
    requires s.off + Span(j.w, n) <= |s.bytes| && WordsReadable(j.u, s.dptr, j.w, n)
    ensures var r := WriteLoop(j, s, n);
      && r.off == s.off + Span(j.w, n) && SameOutside(s.bytes, r.bytes, s.off, r.off)
      && Holds(r.bytes, s.off, j.swap, j.w, j.u, s.dptr, n)
  {
    hide WriteLoop, Leading, Span, SameOutside, WrittenAt, HoldsAt, WordsReadable;
    NoneUnfeasible(j, s.dptr, s.mptr, n);
    BlockMeaning(j, s.bytes, s.off, s.dptr, s.mptr, n, s.data);
    assert s == Writing(s.off, s.dptr, s.mptr, s.bytes, s.data, MASK_ALL, Going);
    var r := WriteLoop(j, s, n);
    forall i: nat | i < n ensures HoldsAt(r.bytes, s.off, j.swap, j.w, j.u, s.dptr, i) {
      WrittenHolds(j, s, r.bytes, i);
    }
  }

  lemma NothingMoved(d: Dev, size: RegSize, bar: nat, off: nat, u: UserMem, ptr: nat, count: nat, stale: Stale)
    requires Accepted(d, size, bar, off) && ScratchInRange(d) && Count(d, size, bar, off, count) == 0
    ensures ReadInline(d, size, bar, off, u, ptr, count, stale) == ReadResult(u, 0, stale.tmp)
  {
    hide ReadLoop, LinkDown;
  }

  /** A plain write call stores the clipped prefix of the user's words and touches nothing else. */
  lemma WriteStores(d: Dev, size: RegSize, bar: nat, off: nat, u: UserMem, dptr: nat, count: nat, stale: Word)
    requires Accepted(d, size, bar, off) && dptr != 0
    requires WordsReadable(u, dptr, Bytes(size), Count(d, size, bar, off, count))
    ensures var n := Count(d, size, bar, off, count);
      var r := WriteInline(d, size, MTCA_SIMPLE_WRITE, bar, off, u, dptr, 0, count, stale);
      && r.ret == Span(Bytes(size), n)
      && r.dev == WithBytes(d, bar, r.dev.bars[bar].bytes)
      && SameOutside(d.bars[bar].bytes, r.dev.bars[bar].bytes, off, off + Span(Bytes(size), n))
      && Holds(r.dev.bars[bar].bytes, off, d.swap, Bytes(size), u, dptr, n)
  {
    var n := Count(d, size, bar, off, count);
    if n == 0 {
      EmptyWrite(d, size, MTCA_SIMPLE_WRITE, bar, off, u, dptr, 0, count, stale);
      assert d.bars == d.bars[bar := d.bars[bar].(bytes := d.bars[bar].bytes)];
    } else {
      WriteCall(d, size, MTCA_SIMPLE_WRITE, bar, off, u, dptr, 0, count, stale);
      var j := WriteJobOf(d, size, MTCA_SIMPLE_WRITE, u, dptr, 0);
      hide WordsReadable, SameOutside, Holds, WriteLoop, WriteInline, Count, Span;
      LoopStores(j, WriteStart(d, bar, off, dptr, 0, stale), n);
    }
  }

  /** A read call with the link up shows every register of the clipped prefix and changes no other user byte. */
  lemma ReadShows(d: Dev, size: RegSize, bar: nat, off: nat, u: UserMem, ptr: nat, count: nat, stale: Stale)
    requires Accepted(d, size, bar, off) && ptr != 0 && ScratchInRange(d) && !LinkDown(d, stale.scratch)
    requires WordsReadable(u, ptr, Bytes(size), Count(d, size, bar, off, count))
    ensures var n := Count(d, size, bar, off, count);
      var r := ReadInline(d, size, bar, off, u, ptr, count, stale);
      && r.ret == Span(Bytes(size), n)
      && SameCells(u, r.user, ptr, ptr + Span(Bytes(size), n))
      && Holds(d.bars[bar].bytes, off, d.swap, Bytes(size), r.user, ptr, n)
  {
    hide LinkDown, ReadLoop, ReadInline, Count, Span, SameCells, DevOk, ScratchInRange, HoldsAt, ReadJobOf, Rejected, WordsReadable;
    var n := Count(d, size, bar, off, count);
    if n == 0 {
      NothingMoved(d, size, bar, off, u, ptr, count, stale);
      SpanZero(Bytes(size));
      SameAnywhere(u, ptr, ptr);
    } else {
      ReadCall(d, size, bar, off, u, ptr, count, stale);
      var j := ReadJobOf(d, size, bar, ptr, stale);
      ReadJobIs(d, size, bar, ptr, stale);
      LoopShows(j, Reading(off, ptr, u, stale.tmp, Going), n);
    }
  }

  lemma ReadJobIs(d: Dev, size: RegSize, bar: nat, ptr: nat, stale: Stale)
    requires DevOk(d) && ScratchInRange(d) && bar < NUMBER_OF_BARS
    ensures ReadJobOf(d, size, bar, ptr, stale) ==
            ReadJob(d.bars[bar].bytes, Bytes(size), d.swap, LinkDown(d, stale.scratch), ptr != 0)
  {
  }

  lemma SpanZero(w: Width)
    ensures Span(w, 0) == 0
  {
  }

  lemma SameAnywhere(u: UserMem, lo: nat, hi: nat)
    ensures SameCells(u, u, lo, hi)
  {
  }

  lemma LoopShows(j: ReadJob, s: Reading, n: nat)
    requires s.status.Going? && s.off + Span(j.w, n) <= |j.m| && !j.linkDown && j.toUser
    requires WordsReadable(s.user, s.ptr, j.w, n)
    ensures var r := ReadLoop(j, s, n);
      && r.status.Going? && r.off == s.off + Span(j.w, n) && SameCells(s.user, r.user, s.ptr, s.ptr + Span(j.w, n))
      && Holds(j.m, s.off, j.swap, j.w, r.user, s.ptr, n)
  {
    hide ReadLoop, Span, Reg, Readable, SameCells, ShownAt, HoldsAt;
    ReadComplete(j, s, n);
    var r := ReadLoop(j, s, n);
    forall i: nat | i < n ensures HoldsAt(j.m, s.off, j.swap, j.w, r.user, s.ptr, i) {
      ShownHolds(j, s, r.user, i);
    }
  }

  /**
   Write, then read back any count with the same width and swap flag: every word that both calls reach comes back,
   both calls report their clipped byte counts, no device byte outside the written registers and no user byte
   outside the read buffer changes.
   */
  lemma RoundTrip(d: Dev, size: RegSize, bar: nat, off: nat, u: UserMem, dptr: nat, count: nat,
                  rptr: nat, rcount: nat, stale: Word, stale': Stale, wr: WriteResult, rd: ReadResult)
    requires Accepted(d, size, bar, off) && dptr != 0 && rptr != 0
    requires WordsReadable(u, dptr, Bytes(size), Count(d, size, bar, off, count))
    requires WordsReadable(u, rptr, Bytes(size), Count(d, size, bar, off, rcount))
    requires wr == WriteInline(d, size, MTCA_SIMPLE_WRITE, bar, off, u, dptr, 0, count, stale)
    requires ScratchInRange(wr.dev) && !LinkDown(wr.dev, stale'.scratch)
    requires rd == ReadInline(wr.dev, size, bar, off, u, rptr, rcount, stale')
    ensures var w, n, n' := Bytes(size), Count(d, size, bar, off, count), Count(d, size, bar, off, rcount);
      && wr.ret == Span(w, n) && rd.ret == Span(w, n')
      && (forall i: nat :: i < n && i < n' ==> SameWord(w, u, dptr, rd.user, rptr, i))
      && wr.dev == WithBytes(d, bar, wr.dev.bars[bar].bytes)
      && SameOutside(d.bars[bar].bytes, wr.dev.bars[bar].bytes, off, off + Span(w, n))
      && SameCells(u, rd.user, rptr, rptr + Span(w, n'))
  {
    hide WriteInline, ReadInline, SameCells, Count, Span, LinkDown, ScratchInRange, WordsReadable, Rejected, HoldsAt, SameWord, WithBytes;
    var w, n, n' := Bytes(size), Count(d, size, bar, off, count), Count(d, size, bar, off, rcount);
    WriteStores(d, size, bar, off, u, dptr, count, stale);
    SameShape(d, bar, wr.dev.bars[bar].bytes, size, off, rcount);
    ReadShows(wr.dev, size, bar, off, u, rptr, rcount, stale');
    var m1 := wr.dev.bars[bar].bytes;
    forall i: nat | i < n && i < n' ensures SameWord(w, u, dptr, rd.user, rptr, i) {
      HoldsBoth(m1, off, d.swap, w, u, dptr, rd.user, rptr, i);
    }
  }

  // ----- what the swap setting is for -----

  lemma HoldsReversed(m: seq<bv8>, off: nat, w: Width, u: UserMem, p: nat, u': UserMem, p': nat, i: nat)
    requires HoldsAt(m, off, false, w, u, p, i) && HoldsAt(m, off, true, w, u', p', i)
    ensures ReversedWord(w, u, p, u', p', i)
  {
    hide Readable, Fetch, Reg, Span, Reverse;
  }

  /** The i-th word from p' on in u' has the bytes of the i-th word from p on in u in reverse. */
  ghost predicate ReversedWord(w: Width, u: UserMem, p: nat, u': UserMem, p': nat, i: nat) {
    var at := Span(w, i);
    Readable(u, p + at, w) && Readable(u', p' + at, w) && Fetch(u', p' + at, w) == Reverse(Fetch(u, p + at, w))
  }

  /** Switching swap on reverses the bytes of every register that a program reads, and changes no byte count. */
  lemma SwapReversesReads(d: Dev, size: RegSize, bar: nat, off: nat, u: UserMem, ptr: nat, ptr': nat, count: nat,
                          stale: Stale, stale': Stale, plain: ReadResult, swapped: ReadResult)
    requires Accepted(d, size, bar, off) && !d.swap && ptr != 0 && ptr' != 0 && ScratchInRange(d)
    requires !LinkDown(d, stale.scratch) && !LinkDown(d, stale'.scratch)
    requires WordsReadable(u, ptr, Bytes(size), Count(d, size, bar, off, count))
    requires WordsReadable(u, ptr', Bytes(size), Count(d, size, bar, off, count))
    requires plain == ReadInline(d, size, bar, off, u, ptr, count, stale)
    requires swapped == ReadInline(d.(swap := true), size, bar, off, u, ptr', count, stale')
    ensures swapped.ret == plain.ret
    ensures forall i: nat :: i < Count(d, size, bar, off, count) ==> ReversedWord(Bytes(size), plain.user, ptr, swapped.user, ptr', i)
  {
    hide ReadInline, WordsReadable, HoldsAt, ReversedWord, Span, SameCells;
    ReadShows(d, size, bar, off, u, ptr, count, stale);
    ReadShows(d.(swap := true), size, bar, off, u, ptr', count, stale');
    forall i: nat | i < Count(d, size, bar, off, count)
      ensures ReversedWord(Bytes(size), plain.user, ptr, swapped.user, ptr', i)
    {
      HoldsReversed(d.bars[bar].bytes, off, Bytes(size), plain.user, ptr, swapped.user, ptr', i);
    }
  }

  // ----- masked writes as calls -----

  /** The device after a write call is its block of registers rewritten. */
  lemma CallIsBlock(d: Dev, size: RegSize, mode: nat, bar: nat, off: nat, u: UserMem, dptr: nat, mptr: nat, count: nat, stale: Word)
    requires Accepted(d, size, bar, off) && 0 < Count(d, size, bar, off, count) && mode >= MTCA_SIMPLE_WRITE
    ensures var n := Count(d, size, bar, off, count);
      var j := WriteJobOf(d, size, mode, u, dptr, mptr);
      && off + Span(j.w, n) <= |d.bars[bar].bytes|
      && WriteInline(d, size, mode, bar, off, u, dptr, mptr, count, stale).dev ==
         WithBytes(d, bar, Block(j, d.bars[bar].bytes, off, dptr, mptr, n, stale))
  {
    WriteCall(d, size, mode, bar, off, u, dptr, mptr, count, stale);
    hide WriteLoop, WriteInline, Count, Span;
  }

  /** Two write calls in a row on the same registers. */
  lemma CallsAreBlocks(d: Dev, size: RegSize, mode: nat, bar: nat, off: nat, u: UserMem,
                       d1: nat, k1: nat, d2: nat, k2: nat, count: nat, stale: Word, stale': Word)
    requires Accepted(d, size, bar, off) && 0 < Count(d, size, bar, off, count) && mode >= MTCA_SIMPLE_WRITE
    ensures var n := Count(d, size, bar, off, count);
      var j1, j2 := WriteJobOf(d, size, mode, u, d1, k1), WriteJobOf(d, size, mode, u, d2, k2);
      && off + Span(j1.w, n) <= |d.bars[bar].bytes| && j1.w == j2.w
      && WriteInline(WriteInline(d, size, mode, bar, off, u, d1, k1, count, stale).dev,
                     size, mode, bar, off, u, d2, k2, count, stale').dev ==
         WithBytes(d, bar, Block(j2, Block(j1, d.bars[bar].bytes, off, d1, k1, n, stale), off, d2, k2, n, stale'))
  {
    CallIsBlock(d, size, mode, bar, off, u, d1, k1, count, stale);
    var n, j1 := Count(d, size, bar, off, count), WriteJobOf(d, size, mode, u, d1, k1);
    var m1 := Block(j1, d.bars[bar].bytes, off, d1, k1, n, stale);
    var dev1 := WithBytes(d, bar, m1);
    SameShape(d, bar, m1, size, off, count);
    hide Block, WriteInline, Count, Span, Rejected;
    CallIsBlock(dev1, size, mode, bar, off, u, d2, k2, count, stale');
    WithBytesTwice(d, bar, m1, Block(WriteJobOf(dev1, size, mode, u, d2, k2), m1, off, d2, k2, n, stale'));
  }

  /** Repeating a SET_BITS call changes nothing more. */
  lemma SetBitsCallIdempotent(d: Dev, size: RegSize, bar: nat, off: nat, u: UserMem, dptr: nat, mptr: nat, count: nat,
                              stale: Word, stale': Word)
    requires DevOk(d) && bar < NUMBER_OF_BARS && dptr != 0
    ensures var d1 := WriteInline(d, size, MTCA_SET_BITS, bar, off, u, dptr, mptr, count, stale).dev;
      WriteInline(d1, size, MTCA_SET_BITS, bar, off, u, dptr, mptr, count, stale').dev == d1
  {
    hide WriteLoop, Block, Span;
    if !Rejected(d, Bytes(size), bar, off) && 0 < Count(d, size, bar, off, count) {
      hide WriteInline, Count, Rejected;
      CallIsBlock(d, size, MTCA_SET_BITS, bar, off, u, dptr, mptr, count, stale);
      CallsAreBlocks(d, size, MTCA_SET_BITS, bar, off, u, dptr, mptr, dptr, mptr, count, stale, stale');
      SetBitsIdempotent(WriteJobOf(d, size, MTCA_SET_BITS, u, dptr, mptr), d.bars[bar].bytes, off, dptr, mptr,
                        Count(d, size, bar, off, count), stale, stale');
    }
  }

  /** Two SWAP_BITS calls with the same mask restore the device. */
  lemma SwapBitsCallTwice(d: Dev, size: RegSize, bar: nat, off: nat, u: UserMem, dptr: nat, mptr: nat, count: nat,
                          stale: Word, stale': Word)
    requires DevOk(d) && bar < NUMBER_OF_BARS
    ensures var d1 := WriteInline(d, size, MTCA_SWAP_BITS, bar, off, u, dptr, mptr, count, stale).dev;
      WriteInline(d1, size, MTCA_SWAP_BITS, bar, off, u, dptr, mptr, count, stale').dev == d
  {
    hide WriteLoop, Block, Span;
    if !Rejected(d, Bytes(size), bar, off) && 0 < Count(d, size, bar, off, count) {
      hide WriteInline, Count, Rejected;
      CallsAreBlocks(d, size, MTCA_SWAP_BITS, bar, off, u, dptr, mptr, dptr, mptr, count, stale, stale');
      SwapBitsTwice(WriteJobOf(d, size, MTCA_SWAP_BITS, u, dptr, mptr), d.bars[bar].bytes, off, dptr, mptr,
                    Count(d, size, bar, off, count), stale, stale');
      WithSameBytes(d, bar);
    }
  }

  /** Two SET_BITS calls on the same registers with disjoint masks can be exchanged. */
  lemma SetBitsCallsCommute(d: Dev, size: RegSize, bar: nat, off: nat, u: UserMem,
                            d1: nat, k1: nat, d2: nat, k2: nat, count: nat,
                            s1: Word, s2: Word, s3: Word, s4: Word)
    requires DevOk(d) && bar < NUMBER_OF_BARS && d1 != 0 && d2 != 0 && k1 != 0 && k2 != 0
    requires forall i: nat :: i < Count(d, size, bar, off, count) ==>
      MasksApart(WriteJobOf(d, size, MTCA_SET_BITS, u, d1, k1), d1, k1, d2, k2, Count(d, size, bar, off, count), i)
    ensures WriteInline(WriteInline(d, size, MTCA_SET_BITS, bar, off, u, d1, k1, count, s1).dev,
                        size, MTCA_SET_BITS, bar, off, u, d2, k2, count, s2).dev ==
            WriteInline(WriteInline(d, size, MTCA_SET_BITS, bar, off, u, d2, k2, count, s3).dev,
                        size, MTCA_SET_BITS, bar, off, u, d1, k1, count, s4).dev
  {
    hide WriteLoop, Block, Span, MasksApart;
    if !Rejected(d, Bytes(size), bar, off) && 0 < Count(d, size, bar, off, count) {
      hide WriteInline, Count, Rejected;
      CallsAreBlocks(d, size, MTCA_SET_BITS, bar, off, u, d1, k1, d2, k2, count, s1, s2);
      CallsAreBlocks(d, size, MTCA_SET_BITS, bar, off, u, d2, k2, d1, k1, count, s3, s4);
      SetBitsCommute(WriteJobOf(d, size, MTCA_SET_BITS, u, d1, k1), d.bars[bar].bytes, off, d1, k1, d2, k2,
                     Count(d, size, bar, off, count), s1, s2, s3, s4);
    }
  }
}
