/**
 What one register request leaves behind, said of the user's words at its data and mask addresses and of the registers at
 its offset: for the requests of a vector call and for the two bit commands.
 */
module VectorMeaning {
  import opened RegisterWords
  import opened TransferSpec
  import opened TransferMeaning
  import opened TransferTheorems
  import opened TransferCalls
  import opened TransferRoundTrip
  import opened TransferContainment
  import opened VectorSpec
  import opened VectorLaws

  /** The register size a request is carried out with: its own, or that of the device when it names none. */
  function SizeOf(requested: nat, device: RegSize): RegSize {
    if requested > 2 then device else requested
  }

  // ----- writes -----

  /**
   Register i after a write: the data word in mode 5, the data word under the mask word in mode 6, the old contents with the
   bits of the mask word inverted in mode 7. No mask means all ones. Words are in the user's byte order.
   */
  ghost predicate Written(mode: nat, w: Width, swap: bool, m: seq<bv8>, m': seq<bv8>, off: nat,
                          u: UserMem, data: nat, mask: nat, i: nat) {
    var at := Span(w, i);
    && off + at + w <= |m| == |m'|
    && (mode == 7 || Readable(u, data + at, w)) && (mask == 0 || Readable(u, mask + at, w))
    && var k := if mask == 0 then Ones(w) else Fetch(u, mask + at, w);
       var before, after := View(swap, m[off + at..off + at + w]), View(swap, m'[off + at..off + at + w]);
       after == if mode == 5 then Fetch(u, data + at, w)
                else if mode == 6 then SetBits(Fetch(u, data + at, w), k, before)
                else ToggleBits(k, before)
  }

  /** Every word a write of n registers fetches can be reached. */
  ghost predicate InputsReadable(u: UserMem, data: nat, mask: nat, w: Width, n: nat) {
    (data == 0 || WordsReadable(u, data, w, n)) && (mask == 0 || WordsReadable(u, mask, w, n))
  }

  lemma AllFeasible(j: WriteJob, dptr: nat, mptr: nat, n: nat)
    requires (j.hasData ==> WordsReadable(j.u, dptr, j.w, n)) && (j.hasMask ==> WordsReadable(j.u, mptr, j.w, n))
    ensures Leading(j, dptr, mptr, n) == n
  {
    var c := Leading(j, dptr, mptr, n);
    hide Leading, Readable, Span;
  }

  lemma WrittenIs(j: WriteJob, s: Writing, m': seq<bv8>, i: nat)
    requires WrittenAt(j, s, m', i) && (j.hasData <==> s.dptr != 0) && (j.hasMask <==> s.mptr != 0)
    ensures Written(j.mode, j.w, j.swap, s.bytes, m', s.off, j.u, s.dptr, s.mptr, i)
  {
    hide Readable, Fetch, View, Span, SetBits, ToggleBits, Ones;
  }

  lemma LoopWrites(j: WriteJob, s: Writing, n: nat)
    requires 5 <= j.mode <= 7 && (j.hasData || j.mode == 7) && s.status.Going? && s.mask == MASK_ALL
    requires (j.hasData <==> s.dptr != 0) && (j.hasMask <==> s.mptr != 0)
    requires s.off + Span(j.w, n) <= |s.bytes| && InputsReadable(j.u, s.dptr, s.mptr, j.w, n)
    ensures var r := WriteLoop(j, s, n);
      && r.off == s.off + Span(j.w, n) && SameOutside(s.bytes, r.bytes, s.off, r.off)
      && forall i: nat :: i < n ==> Written(j.mode, j.w, j.swap, s.bytes, r.bytes, s.off, j.u, s.dptr, s.mptr, i)
  {
    hide WriteLoop, Leading, Span, SameOutside, WrittenAt, Written, WordsReadable;
    AllFeasible(j, s.dptr, s.mptr, n);
    BlockMeaning(j, s.bytes, s.off, s.dptr, s.mptr, n, s.data);
    assert s == Writing(s.off, s.dptr, s.mptr, s.bytes, s.data, MASK_ALL, Going);
    var r := WriteLoop(j, s, n);
    forall i: nat | i < n ensures Written(j.mode, j.w, j.swap, s.bytes, r.bytes, s.off, j.u, s.dptr, s.mptr, i) {
      WrittenIs(j, s, r.bytes, i);
    }
  }

  /** What a complete write call leaves: n registers written as asked, nothing else changed, and their size returned. */
  ghost predicate CallWritten(d: Dev, d': Dev, ret: int, mode: nat, size: RegSize, bar: nat, off: nat,
                              u: UserMem, data: nat, mask: nat, n: nat)
    requires DevOk(d) && bar < NUMBER_OF_BARS
  {
    && |d'.bars| == NUMBER_OF_BARS && |d'.bars[bar].bytes| == |d.bars[bar].bytes|
    && d' == WithBytes(d, bar, d'.bars[bar].bytes) && ret == Span(Bytes(size), n)
    && SameOutside(d.bars[bar].bytes, d'.bars[bar].bytes, off, off + Span(Bytes(size), n))
    && forall i: nat :: i < n ==>
         Written(mode, Bytes(size), d.swap, d.bars[bar].bytes, d'.bars[bar].bytes, off, u, data, mask, i)
  }

  lemma CallWrites(d: Dev, size: RegSize, mode: nat, bar: nat, off: nat, u: UserMem, data: nat, mask: nat, count: nat, stale: Word)
    requires Accepted(d, size, bar, off) && 5 <= mode <= 7 && (data != 0 || mode == 7)
    requires InputsReadable(u, data, mask, Bytes(size), Count(d, size, bar, off, count))
    ensures var r := WriteInline(d, size, mode, bar, off, u, data, mask, count, stale);
      CallWritten(d, r.dev, r.ret, mode, size, bar, off, u, data, mask, Count(d, size, bar, off, count))
  {
    hide WriteLoop, WriteInline, Count, Span, SameOutside, Written, InputsReadable, WithBytes, Rejected;
    var n := Count(d, size, bar, off, count);
    if n == 0 {
      EmptyWrite(d, size, mode, bar, off, u, data, mask, count, stale);
      WithSameBytes(d, bar);
      EmptyCall(d, size, bar, off);
    } else {
      WriteCall(d, size, mode, bar, off, u, data, mask, count, stale);
      var j, s := WriteJobOf(d, size, mode, u, data, mask), WriteStart(d, bar, off, data, mask, stale);
      LoopWrites(j, s, n);
      SameShape(d, bar, WriteLoop(j, s, n).bytes, size, off, count);
    }
  }

  // ----- requests of a vector call -----

  /** A write request acts on the registers at its offset with the words at its data and mask addresses. */
  lemma RequestWrites(s: Session, q: Request, stale: Stale)
    requires Ready(s) && q.bar < NUMBER_OF_BARS && 5 <= q.mode <= 7 && (q.data != 0 || q.mode == 7)
    requires var size := SizeOf(q.size, s.dev.size);
      && Accepted(s.dev, size, q.bar, q.offset)
      && InputsReadable(s.user, q.data, q.mask, Bytes(size), Count(s.dev, size, q.bar, q.offset, q.count))
    ensures var r := Single(s, q, stale); var size := SizeOf(q.size, s.dev.size);
      && r.user == s.user
      && CallWritten(s.dev, r.dev, r.ret, q.mode, size, q.bar, q.offset, s.user, q.data, q.mask,
                     Count(s.dev, size, q.bar, q.offset, q.count))
  {
    hide WriteInline, ReadInline, Count, InputsReadable, CallWritten, Rejected;
    CallWrites(s.dev, SizeOf(q.size, s.dev.size), q.mode, q.bar, q.offset, s.user, q.data, q.mask, q.count, stale.tmp);
  }

  /** A read request shows the registers at its offset in the words at its data address. */
  lemma RequestReads(s: Session, q: Request, stale: Stale)
    requires Ready(s) && q.bar < NUMBER_OF_BARS && q.mode < 5 && q.data != 0 && !LinkDown(s.dev, stale.scratch)
    requires var size := SizeOf(q.size, s.dev.size);
      && Accepted(s.dev, size, q.bar, q.offset)
      && WordsReadable(s.user, q.data, Bytes(size), Count(s.dev, size, q.bar, q.offset, q.count))
    ensures var r := Single(s, q, stale); var size := SizeOf(q.size, s.dev.size);
      var n := Count(s.dev, size, q.bar, q.offset, q.count);
      && r.dev == s.dev && r.ret == Span(Bytes(size), n)
      && SameCells(s.user, r.user, q.data, q.data + Span(Bytes(size), n))
      && Holds(s.dev.bars[q.bar].bytes, q.offset, s.dev.swap, Bytes(size), r.user, q.data, n)
  {
    hide WriteInline, ReadInline, Count, WordsReadable, Rejected, LinkDown, Holds, SameCells, Span;
    ReadShows(s.dev, SizeOf(q.size, s.dev.size), q.bar, q.offset, s.user, q.data, q.count, stale);
  }

  /** A request that is rejected changes nothing and contributes -EFAULT. */
  lemma RequestRejected(s: Session, q: Request, stale: Stale)
    requires Ready(s) && q.bar < NUMBER_OF_BARS && !Accepted(s.dev, SizeOf(q.size, s.dev.size), q.bar, q.offset)
    ensures Single(s, q, stale) == Outcome(s.dev, s.user, -14)
  {
    hide ReadLoop, WriteLoop, LinkDown;
  }

  lemma {:induction false} OtherModeLoop(j: WriteJob, s: Writing, n: nat)
    requires s.off + Span(j.w, n) <= |s.bytes| && j.mode > 7
    ensures WriteLoop(j, s, n).bytes == s.bytes
    decreases n
  {
    hide WriteOne;
    if n > 0 {
      OtherModeRound(j, s);
      OtherModeLoop(j, WriteOne(j, s), n - 1);
    }
  }

  lemma OtherModeRound(j: WriteJob, s: Writing)
    requires s.off + j.w <= |s.bytes| && j.mode > 7
    ensures WriteOne(j, s).bytes == s.bytes && WriteOne(j, s).off <= s.off + j.w
  {
    assert Store(s.bytes, s.off, s.bytes[s.off..s.off + j.w]) == s.bytes;
    hide LoadTmp, Patch, Fetch;
  }

  /** Modes above 7 go through the write path and write nothing. */
  lemma OtherModesWriteNothing(s: Session, q: Request, stale: Stale)
    requires Ready(s) && q.bar < NUMBER_OF_BARS && q.mode > 7
    ensures Single(s, q, stale).dev == s.dev && Single(s, q, stale).user == s.user
  {
    hide WriteLoop, ReadInline, Span, Count, WithBytes;
    var size := CorrectSize(q.size, s.dev.size);
    if Accepted(s.dev, size, q.bar, q.offset) && 0 < Count(s.dev, size, q.bar, q.offset, q.count) {
      hide WriteInline, Rejected;
      WriteCall(s.dev, size, q.mode, q.bar, q.offset, s.user, q.data, q.mask, q.count, stale.tmp);
      OtherModeLoop(WriteJobOf(s.dev, size, q.mode, s.user, q.data, q.mask),
                    WriteStart(s.dev, q.bar, q.offset, q.data, q.mask, stale.tmp), Count(s.dev, size, q.bar, q.offset, q.count));
      WithSameBytes(s.dev, q.bar);
    } else if Accepted(s.dev, size, q.bar, q.offset) {
      EmptyWrite(s.dev, size, q.mode, q.bar, q.offset, s.user, q.data, q.mask, q.count, stale.tmp);
    }
  }

  /** Whatever a request asks for, it returns width times registers completed, with the device's width when it names none. */
  lemma RequestContained(s: Session, q: Request, stale: Stale) returns (c: nat)
    requires Ready(s) && q.bar < NUMBER_OF_BARS && Accepted(s.dev, SizeOf(q.size, s.dev.size), q.bar, q.offset)
    ensures var r := Single(s, q, stale); var w := Bytes(SizeOf(q.size, s.dev.size));
      && c <= q.count && Inside(Total(s.dev.bars[q.bar]), q.offset, w, c)
      && (r.ret == Span(w, c) || (q.mode < 5 && r.ret == -12 && LinkDown(s.dev, stale.scratch)))
  {
    hide ReadInline, WriteInline, Rejected, LinkDown, Inside, Span, SameOutside, SameCells, WithBytes, Count;
    var size := SizeOf(q.size, s.dev.size);
    if q.mode < 5 {
      c := ReadContained(s.dev, size, q.bar, q.offset, s.user, q.data, q.count, stale,
                         ReadInline(s.dev, size, q.bar, q.offset, s.user, q.data, q.count, stale));
      InsideFewer(Total(s.dev.bars[q.bar]), q.offset, Bytes(size), c);
    } else {
      c := WriteContained(s.dev, size, q.mode, q.bar, q.offset, s.user, q.data, q.mask, q.count, stale.tmp,
                          WriteInline(s.dev, size, q.mode, q.bar, q.offset, s.user, q.data, q.mask, q.count, stale.tmp));
    }
  }

  lemma InsideFewer(total: nat, off: nat, w: Width, c: nat)
    ensures Inside(total, off, w, c + 1) ==> Inside(total, off, w, c)
  {
    hide Span;
  }

  /** A vector call with one request is that request, with its result in a C int. */
  lemma OneRequest(s: Session, ptr: nat, stale: Stale)
    requires Ready(s) && s.ret == 0
    ensures if !Readable(s.user, ptr, 32) then VectorLoop(s, ptr, [stale]) == s
      else
        var q := Decode(Fetch(s.user, ptr, 32));
        q.bar < NUMBER_OF_BARS ==>
          && BarsOk(s, ptr, [stale])
          && VectorLoop(s, ptr, [stale]) ==
             Session(Single(s, q, stale).dev, Single(s, q, stale).user, Wrap32(Single(s, q, stale).ret))
  {
    hide Single, Decode, Fetch, Readable, Wrap32;
    if Readable(s.user, ptr, 32) && Decode(Fetch(s.user, ptr, 32)).bar < NUMBER_OF_BARS {
      assert [stale][1..] == [];
      assert BarsOk(Perform(s, Next(s, ptr), stale), ptr + REQUEST_BYTES, []);
    }
  }

  /** A C int holds the sum up to multiples of 2^32. */
  lemma WrapIs(x: int)
    ensures -0x8000_0000 <= Wrap32(x) <= 0x7FFF_FFFF && (x - Wrap32(x)) % 0x1_0000_0000 == 0
    ensures -0x8000_0000 <= x <= 0x7FFF_FFFF ==> Wrap32(x) == x
  {
    var y := x + 0x8000_0000;
    assert y == 0x1_0000_0000 * (y / 0x1_0000_0000) + y % 0x1_0000_0000;
  }

  /** Request i is what stands at its place in the table once the requests before it are carried out. */
  lemma {:induction false} TakenAt(s: Session, ptr: nat, stales: seq<Stale>, i: nat)
    requires Ready(s) && BarsOk(s, ptr, stales) && i < |Taken(s, ptr, stales)|
    ensures var qs := Taken(s, ptr, stales);
      && RunOk(s, qs[..i], stales)
      && var mid := OneByOne(s, qs[..i], stales);
         Readable(mid.user, ptr + 32 * i, 32) && qs[i] == Decode(Fetch(mid.user, ptr + 32 * i, 32))
    decreases i
  {
    hide Perform, Ready, Decode, Fetch, Readable;
    var qs := Taken(s, ptr, stales);
    if i > 0 {
      var s' := Perform(s, qs[0], stales[0]);
      var rest := Taken(s', ptr + REQUEST_BYTES, stales[1..]);
      assert qs == [qs[0]] + rest;
      TakenAt(s', ptr + REQUEST_BYTES, stales[1..], i - 1);
      assert qs[..i] == [qs[0]] + rest[..i - 1];
      OneByOneFront(s, qs[0], rest[..i - 1], stales);
    }
  }

  /** The call gets as far as the table can be read. */
  lemma {:induction false} ReachableIs(u: UserMem, ptr: nat, n: nat)
    ensures var k := Reachable(u, ptr, n);
      && k <= n && (forall i: nat :: i < k ==> Entry(u, ptr, i)) && (k < n ==> !Entry(u, ptr, k))
    decreases n
  {
    hide Readable;
    if n > 0 && Readable(u, ptr, REQUEST_BYTES) {
      ReachableIs(u, ptr + REQUEST_BYTES, n - 1);
      var k := Reachable(u, ptr, n);
      forall i: nat | i < k ensures Entry(u, ptr, i) {
        if i > 0 {
          assert Entry(u, ptr + REQUEST_BYTES, i - 1);
        }
      }
    }
  }

  /** Entry i of the table can be fetched. */
  predicate Entry(u: UserMem, ptr: nat, i: nat) {
    Readable(u, ptr + 32 * i, 32)
  }

  // ----- the bit commands -----

  /** PCIEDEV_SET_BITS and PCIEDEV_SWAP_BITS set and toggle the registers at the offset with the words of the request. */
  lemma MaskedMeaning(d: Dev, toggle: bool, u: UserMem, q: Request, stale: Word)
    requires DevOk(d) && q.bar < NUMBER_OF_BARS && (toggle || q.data != 0)
    requires var size := SizeOf(q.size, d.size);
      && Accepted(d, size, q.bar, q.offset)
      && InputsReadable(u, if toggle then 0 else q.data, q.mask, Bytes(size), Count(d, size, q.bar, q.offset, q.count))
    ensures var r := Masked(d, toggle, u, q, stale); var size := SizeOf(q.size, d.size);
      CallWritten(d, r.dev, r.ret, if toggle then 7 else 6, size, q.bar, q.offset, u, if toggle then 0 else q.data, q.mask,
                  Count(d, size, q.bar, q.offset, q.count))
  {
    hide WriteInline, Count, InputsReadable, CallWritten, Rejected;
    CallWrites(d, SizeOf(q.size, d.size), if toggle then 7 else 6, q.bar, q.offset, u, if toggle then 0 else q.data,
               q.mask, q.count, stale);
  }

  /** A bit command completes whole registers, of the device's width when the request names none, and touches nothing else. */
  lemma MaskedContained(d: Dev, toggle: bool, u: UserMem, q: Request, stale: Word, r: WriteResult) returns (c: nat)
    requires DevOk(d) && q.bar < NUMBER_OF_BARS && r == Masked(d, toggle, u, q, stale)
    ensures var size := SizeOf(q.size, d.size);
      if !Accepted(d, size, q.bar, q.offset) then r.dev == d && r.ret == -14 && c == 0
      else
        && c <= q.count && r.ret == Span(Bytes(size), c) && |r.dev.bars| == NUMBER_OF_BARS
        && SameOutside(d.bars[q.bar].bytes, r.dev.bars[q.bar].bytes, q.offset, q.offset + Span(Bytes(size), c))
  {
    hide WriteInline, Rejected, Inside, Span, SameOutside, WithBytes;
    c := WriteContained(d, SizeOf(q.size, d.size), if toggle then MTCA_SWAP_BITS else MTCA_SET_BITS, q.bar, q.offset, u,
                        if toggle then 0 else q.data, q.mask, q.count, stale, r);
  }
}
