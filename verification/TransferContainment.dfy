/**
 Containment: whatever offset, count, width and mode a caller asks for, a call touches only aligned registers in the
 first end-start bytes of its BAR, and what it returns is the size of the registers it completed.
 */
module TransferContainment {
  import opened RegisterWords
  import opened TransferSpec
  import opened TransferLaws
  import opened TransferMeaning
  import opened TransferCalls
  import opened TransferRoundTrip

  lemma WriteOneFrame(j: WriteJob, s: Writing)
    requires s.off + j.w <= |s.bytes|
    ensures var r := WriteOne(j, s);
      && SameOutside(s.bytes, r.bytes, s.off, s.off + j.w)
      && r.off == (if r.status.Going? then s.off + j.w else s.off)
      && (!r.status.Going? ==> r.bytes == s.bytes)
  {
    if s.status.Going? && Feasible(j, s.dptr, s.mptr) {
      var d := LoadTmp(j.u, j.hasData, s.dptr, j.w, j.swap, s.data);
      var k := LoadTmp(j.u, j.hasMask, s.mptr, j.w, j.swap, s.mask);
      StoreFrame(s.bytes, s.off, j.w, RegisterAfter(j.mode, d[..j.w], k[..j.w], s.bytes[s.off..s.off + j.w]));
      hide LoadTmp, RegisterAfter, Store, Fetch;
    }
  }

  /** c registers of the block were completed, and nothing outside them changed. */
  lemma {:induction false} WriteLoopFrame(j: WriteJob, s: Writing, n: nat) returns (c: nat)
    requires s.status.Going? && s.off + Span(j.w, n) <= |s.bytes|
    ensures var r := WriteLoop(j, s, n);
      c <= n && r.off == s.off + Span(j.w, c) && SameOutside(s.bytes, r.bytes, s.off, r.off)
    decreases n
  {
    hide WriteOne, SameOutside;
    if n == 0 {
      SameSelf(s.bytes, s.off);
      c := 0;
    } else {
      var s' := WriteOne(j, s);
      WriteOneFrame(j, s);
      if s'.status.Going? {
        c := WriteLoopFrame(j, s', n - 1);
        SameUnion(s.bytes, s'.bytes, WriteLoop(j, s, n).bytes, s.off, s'.off, WriteLoop(j, s, n).off);
        c := c + 1;
      } else {
        StoppedWrite(j, s', n - 1);
        SameSelf(s.bytes, s.off);
        c := 0;
      }
    }
  }

  lemma SameSelf(m: seq<bv8>, at: nat)
    ensures SameOutside(m, m, at, at)
  {
  }

  /** The k-th of c completed registers is aligned and inside the BAR. */
  ghost predicate Inside(total: nat, off: nat, w: Width, c: nat) {
    forall k: nat :: k < c ==> (off + Span(w, k)) % w == 0 && off + Span(w, k) + w <= total
  }

  lemma ClippedInside(total: nat, off: nat, w: Width, count: nat, c: nat)
    requires off % w == 0 && c <= Clip(total, off, w, count)
    ensures Inside(total, off, w, c)
  {
    hide Span, Clip;
    forall k: nat | k < c ensures (off + Span(w, k)) % w == 0 && off + Span(w, k) + w <= total {
      SpanIs(w, k);
      Contained(total, off, w, count, k);
    }
  }

  /** A write call completes c registers, returns their size, and changes no byte outside them and no other BAR. */
  lemma WriteContained(d: Dev, size: RegSize, mode: nat, bar: nat, off: nat,
                       u: UserMem, dptr: nat, mptr: nat, count: nat, stale: Word, r: WriteResult) returns (c: nat)
    requires DevOk(d) && bar < NUMBER_OF_BARS && mode >= MTCA_SIMPLE_WRITE
    requires r == WriteInline(d, size, mode, bar, off, u, dptr, mptr, count, stale)
    ensures if !Accepted(d, size, bar, off) then r.dev == d && r.ret == -EFAULT && c == 0
      else
        && c <= count && r.ret == Span(Bytes(size), c) && Inside(Total(d.bars[bar]), off, Bytes(size), c)
        && |r.dev.bars| == NUMBER_OF_BARS && |r.dev.bars[bar].bytes| == |d.bars[bar].bytes|
        && r.dev == WithBytes(d, bar, r.dev.bars[bar].bytes)
        && SameOutside(d.bars[bar].bytes, r.dev.bars[bar].bytes, off, off + Span(Bytes(size), c))
  {
    hide WriteLoop, Span, SameOutside, Inside, WithBytes, Count;
    c := 0;
    if Accepted(d, size, bar, off) {
      var n := Count(d, size, bar, off, count);
      if n == 0 {
        EmptyWrite(d, size, mode, bar, off, u, dptr, mptr, count, stale);
        WithSameBytes(d, bar);
        EmptyCall(d, size, bar, off);
      } else {
        hide WriteInline;
        WriteCall(d, size, mode, bar, off, u, dptr, mptr, count, stale);
        var j, s := WriteJobOf(d, size, mode, u, dptr, mptr), WriteStart(d, bar, off, dptr, mptr, stale);
        c := WriteLoopFrame(j, s, n);
        SameShape(d, bar, WriteLoop(j, s, n).bytes, size, off, count);
        CountInside(d, size, bar, off, count, c);
      }
    }
  }

  lemma CountInside(d: Dev, size: RegSize, bar: nat, off: nat, count: nat, c: nat)
    requires Accepted(d, size, bar, off) && c <= Count(d, size, bar, off, count)
    ensures Inside(Total(d.bars[bar]), off, Bytes(size), c) && c <= count
  {
    hide Inside;
    ClippedInside(Total(d.bars[bar]), off, Bytes(size), count, c);
  }

  lemma EmptyCall(d: Dev, size: RegSize, bar: nat, off: nat)
    requires DevOk(d) && bar < NUMBER_OF_BARS
    ensures Span(Bytes(size), 0) == 0 && Inside(Total(d.bars[bar]), off, Bytes(size), 0)
    ensures SameOutside(d.bars[bar].bytes, d.bars[bar].bytes, off, off)
  {
  }

  /**
   A read call completes c registers and returns their size, or -ENOMEM when the link was lost at the next one. That one,
   and the one whose copy fails, is read from hardware too, and lies inside as well.
   */
  lemma ReadContained(d: Dev, size: RegSize, bar: nat, off: nat, u: UserMem, ptr: nat, count: nat, stale: Stale,
                      r: ReadResult) returns (c: nat)
    requires DevOk(d) && ScratchInRange(d) && bar < NUMBER_OF_BARS
    requires r == ReadInline(d, size, bar, off, u, ptr, count, stale)
    ensures if !Accepted(d, size, bar, off) then r.user == u && r.ret == -EFAULT && c == 0
      else
        && c <= Count(d, size, bar, off, count) <= count
        && Inside(Total(d.bars[bar]), off, Bytes(size), if c < Count(d, size, bar, off, count) then c + 1 else c)
        && (r.ret == Span(Bytes(size), c) || (r.ret == -ENOMEM && LinkDown(d, stale.scratch)))
        && SameCells(u, r.user, ptr, ptr + Span(Bytes(size), c))
  {
    hide ReadLoop, LinkDown, Span, SameCells, Inside, Count, ScratchInRange, ShownAt, Reg, Readable;
    c := 0;
    if Accepted(d, size, bar, off) {
      var n := Count(d, size, bar, off, count);
      if n == 0 {
        NothingMoved(d, size, bar, off, u, ptr, count, stale);
        SameAnywhere(u, ptr, ptr);
        CountInside(d, size, bar, off, count, 0);
        EmptyCall(d, size, bar, off);
      } else {
        hide ReadInline;
        ReadCall(d, size, bar, off, u, ptr, count, stale);
        var j := ReadJobOf(d, size, bar, ptr, stale);
        c := ReadMeaning(j, Reading(off, ptr, u, stale.tmp, Going), n);
        if ptr == 0 {
          SameAnywhere(u, ptr, ptr + Span(Bytes(size), c));
        }
        CountInside(d, size, bar, off, count, if c < n then c + 1 else c);
        CountInside(d, size, bar, off, count, n);
      }
    }
  }
}
