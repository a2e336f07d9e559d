/**
 What the register transfer loops of read_write_inline.h compute, as functions of the BAR contents,
 the user's memory and the stale temporaries. The other Transfer modules prove what these functions mean;
 DeviceObject.dfy proves that the loops compute them.
 */
module TransferSpec {
  import opened RegisterWords

  const MTCA_SIMPLE_WRITE: nat := 5
  const MTCA_SET_BITS: nat := 6
  const MTCA_SWAP_BITS: nat := 7

  const ENOMEM: int := 12
  const EFAULT: int := 14
  const NUMBER_OF_BARS: nat := 6
  const TWO32: nat := 0x1_0000_0000

  /** One base address register: mapped when `memmory_base` is not null. */
  datatype Bar = Bar(mapped: bool, base: nat, end: nat, bytes: seq<bv8>)

  datatype Dev = Dev(bars: seq<Bar>, swap: bool, size: RegSize, scratchBar: nat, scratchOffset: nat)

  /** The caller's address space: its domain is what copy_from_user and copy_to_user can reach. */
  type UserMem = map<nat, bv8>

  /** `mem_base_end - mem_base` in 32 bits; probe maps exactly so many bytes. */
  function Total(b: Bar): nat {
    (b.end - b.base) % TWO32
  }

  predicate DevOk(d: Dev) {
    && |d.bars| == NUMBER_OF_BARS
    && forall i :: 0 <= i < NUMBER_OF_BARS && d.bars[i].mapped ==> |d.bars[i].bytes| == Total(d.bars[i])
  }

  /** Number of registers a call may transfer: the requested count, cut at the end of the BAR. */
  function Clip(total: nat, off: nat, w: Width, count: nat): nat {
    var after := if total > off then total - off else 0;
    if count < after / w then count else after / w
  }

  // ----- user memory -----

  predicate Readable(u: UserMem, p: nat, n: nat) {
    forall i :: p <= i < p + n ==> i in u
  }

  function Fetch(u: UserMem, p: nat, n: nat): (b: seq<bv8>)
    requires Readable(u, p, n)
    ensures |b| == n
  {
    seq(n, i requires 0 <= i < n => u[p + i])
  }

  function Put(u: UserMem, p: nat, b: seq<bv8>): (u': UserMem)
    requires Readable(u, p, |b|)
    ensures u'.Keys == u.Keys
  {
    map i | i in u :: if p <= i < p + |b| then b[i - p] else u[i]
  }

  // ----- BAR memory -----

  function Store(m: seq<bv8>, a: nat, b: seq<bv8>): (m': seq<bv8>)
    requires a + |b| <= |m|
    ensures |m'| == |m|
  {
    m[..a] + b + m[a + |b|..]
  }

  /** What Read_Write_Private leaves in a register. */
  function RegisterAfter(mode: nat, data: seq<bv8>, mask: seq<bv8>, prev: seq<bv8>): (r: seq<bv8>)
    requires |data| == |mask| == |prev|
    ensures |r| == |prev|
  {
    if mode == MTCA_SIMPLE_WRITE then data
    else if mode == MTCA_SET_BITS then SetBits(data, mask, prev)
    else if mode == MTCA_SWAP_BITS then ToggleBits(mask, prev)
    else prev
  }

  /** The all-ones pattern that a read compares its 32-bit temporary with. */
  function AllOnes(w: Width): Word {
    Ones(w) + seq(4 - w, _ => 0)
  }

  // ----- the loops -----

  /** The bytes of n registers. */
  function Span(w: Width, n: nat): nat {
    if n == 0 then 0 else w + Span(w, n - 1)
  }

  /** What stays fixed during one read: BAR bytes, width, swap flag, link state, and whether there is a buffer. */
  datatype ReadJob = ReadJob(m: seq<bv8>, w: Width, swap: bool, linkDown: bool, toUser: bool)

  /** A loop runs, has lost the PCIe link, or has met an unreachable user address. */
  datatype Status = Going | LinkLost | Faulted

  /** Device offset, user pointer, user memory and the 32-bit temporary of the read loop. */
  datatype Reading = Reading(off: nat, ptr: nat, user: UserMem, tmp: Word, status: Status)

  /** One round of the loop of pciedev_read_inline. */
  function ReadOne(j: ReadJob, s: Reading): Reading
    requires s.status.Going? ==> s.off + j.w <= |j.m|
  {
    if !s.status.Going? then s
    else
      var t1 := Patch(s.tmp, j.m[s.off..s.off + j.w]);
      if t1 == AllOnes(j.w) && j.linkDown then s.(tmp := t1, status := LinkLost)
      else
        var t2 := if j.swap then SwapTmp(j.w, t1) else t1;
        if j.toUser && !Readable(s.user, s.ptr, j.w) then s.(tmp := t2, status := Faulted)
        else Reading(s.off + j.w, s.ptr + j.w, if j.toUser then Put(s.user, s.ptr, t2[..j.w]) else s.user, t2, Going)
  }

  /** At most n rounds of the read loop. */
  function ReadLoop(j: ReadJob, s: Reading, n: nat): (r: Reading)
    requires s.off + Span(j.w, n) <= |j.m|
    ensures s.off <= r.off <= s.off + Span(j.w, n)
    decreases n
  {
    if n == 0 then s else ReadLoop(j, ReadOne(j, s), n - 1)
  }

  /** A user word copied into a temporary, in the device's byte order. */
  function LoadTmp(u: UserMem, from: bool, ptr: nat, w: Width, swap: bool, tmp: Word): Word
    requires from ==> Readable(u, ptr, w)
  {
    var t := if from then Patch(tmp, Fetch(u, ptr, w)) else tmp;
    if swap then SwapTmp(w, t) else t
  }

  datatype WriteJob = WriteJob(w: Width, swap: bool, mode: nat, u: UserMem, hasData: bool, hasMask: bool)

  /** Offset, user pointers, BAR bytes and the two 32-bit temporaries of the write loop. */
  datatype Writing = Writing(off: nat, dptr: nat, mptr: nat, bytes: seq<bv8>, data: Word, mask: Word, status: Status)

  /** Both user words of the next register can be fetched. */
  predicate Feasible(j: WriteJob, dptr: nat, mptr: nat) {
    (j.hasData ==> Readable(j.u, dptr, j.w)) && (j.hasMask ==> Readable(j.u, mptr, j.w))
  }

  /** One round of the loop of pciedev_write_inline. */
  function WriteOne(j: WriteJob, s: Writing): (r: Writing)
    requires s.status.Going? ==> s.off + j.w <= |s.bytes|
    ensures |r.bytes| == |s.bytes|
  {
    if !s.status.Going? then s
    else if j.hasData && !Readable(j.u, s.dptr, j.w) then s.(status := Faulted)
    else if j.hasMask && !Readable(j.u, s.mptr, j.w) then
      s.(status := Faulted, data := if j.hasData then Patch(s.data, Fetch(j.u, s.dptr, j.w)) else s.data)
    else
      var d := LoadTmp(j.u, j.hasData, s.dptr, j.w, j.swap, s.data);
      var k := LoadTmp(j.u, j.hasMask, s.mptr, j.w, j.swap, s.mask);
      var prev := s.bytes[s.off..s.off + j.w];
      Writing(s.off + j.w, s.dptr + j.w, s.mptr + j.w,
              Store(s.bytes, s.off, RegisterAfter(j.mode, d[..j.w], k[..j.w], prev)),
              if IsWrite(j.mode) then d else Patch(d, prev), k, Going)
  }

  /** The modes for which Read_Write_Private writes; every other mode reads into the data temporary. */
  predicate IsWrite(mode: nat) {
    mode == MTCA_SIMPLE_WRITE || mode == MTCA_SET_BITS || mode == MTCA_SWAP_BITS
  }

  /** At most n rounds of the write loop. */
  function WriteLoop(j: WriteJob, s: Writing, n: nat): (r: Writing)
    requires s.off + Span(j.w, n) <= |s.bytes|
    ensures |r.bytes| == |s.bytes| && s.off <= r.off <= s.off + Span(j.w, n)
    decreases n
  {
    if n == 0 then s else WriteLoop(j, WriteOne(j, s), n - 1)
  }

  // ----- the entry points -----

  predicate ScratchInRange(d: Dev)
    requires DevOk(d)
  {
    && d.scratchBar < NUMBER_OF_BARS
    && (d.bars[d.scratchBar].mapped ==> d.scratchOffset + Bytes(d.size) <= |d.bars[d.scratchBar].bytes|)
  }

  /** `pciedev_check_scratch`; `stale` is what its uninitialised temporary holds. */
  predicate LinkDown(d: Dev, stale: Word)
    requires DevOk(d) && ScratchInRange(d)
  {
    var b := d.bars[d.scratchBar];
    var w := Bytes(d.size);
    !b.mapped || Patch(stale, b.bytes[d.scratchOffset..d.scratchOffset + w]) == AllOnes(w)
  }

  datatype ReadResult = ReadResult(user: UserMem, ret: int, tmp: Word)

  datatype WriteResult = WriteResult(dev: Dev, ret: int, data: Word)

  /** Uninitialised temporaries of one call: the transfer word and the scratch word. */
  datatype Stale = Stale(tmp: Word, scratch: Word)

  predicate Rejected(d: Dev, w: Width, bar: nat, off: nat)
    requires DevOk(d) && bar < NUMBER_OF_BARS
  {
    !d.bars[bar].mapped || off % w != 0
  }

  lemma {:induction false} SpanIs(w: Width, n: nat)
    ensures Span(w, n) == n * w
  {
    if n > 0 {
      SpanIs(w, n - 1);
    }
  }

  lemma ClipFits(total: nat, off: nat, w: Width, count: nat)
    ensures var n := Clip(total, off, w, count); n == 0 || off + Span(w, n) <= total
    ensures Span(w, Clip(total, off, w, count)) <= (if total > off then total - off else 0)
  {
    var after := if total > off then total - off else 0;
    var n := Clip(total, off, w, count);
    assert n * w <= (after / w) * w <= after;
    SpanIs(w, n);
  }

  /** `pciedev_read_inline` on a corrected register size; ptr 0 is the null buffer. */
  function ReadInline(d: Dev, size: RegSize, bar: nat, off: nat, u: UserMem, ptr: nat, count: nat, stale: Stale): ReadResult
    requires DevOk(d) && ScratchInRange(d) && bar < NUMBER_OF_BARS
  {
    var w := Bytes(size);
    if Rejected(d, w, bar, off) then ReadResult(u, -EFAULT, stale.tmp)
    else
      var n := Clip(Total(d.bars[bar]), off, w, count);
      ClipFits(Total(d.bars[bar]), off, w, count);
      if n == 0 then ReadResult(u, 0, stale.tmp)
      else
        var r := ReadLoop(ReadJob(d.bars[bar].bytes, w, d.swap, LinkDown(d, stale.scratch), ptr != 0),
                          Reading(off, ptr, u, stale.tmp, Going), n);
        ReadResult(r.user, if r.status.LinkLost? then -ENOMEM else r.off - off, r.tmp)
  }

  function WithBytes(d: Dev, bar: nat, bytes: seq<bv8>): (d': Dev)
    requires DevOk(d) && bar < NUMBER_OF_BARS && |bytes| == |d.bars[bar].bytes|
    ensures DevOk(d')
  {
    d.(bars := d.bars[bar := d.bars[bar].(bytes := bytes)])
  }

  const MASK_ALL: Word := [0xFF, 0xFF, 0xFF, 0xFF]

  /** `pciedev_write_inline` on a corrected register size; pointers 0 are null. */
  function WriteInline(d: Dev, size: RegSize, mode: nat, bar: nat, off: nat,
                       u: UserMem, dptr: nat, mptr: nat, count: nat, stale: Word): (r: WriteResult)
    requires DevOk(d) && bar < NUMBER_OF_BARS && mode >= MTCA_SIMPLE_WRITE
    ensures DevOk(r.dev)
  {
    var w := Bytes(size);
    if Rejected(d, w, bar, off) then WriteResult(d, -EFAULT, stale)
    else
      var n := Clip(Total(d.bars[bar]), off, w, count);
      ClipFits(Total(d.bars[bar]), off, w, count);
      if n == 0 then WriteResult(d, 0, stale)
      else
        var r := WriteLoop(WriteJob(w, d.swap, mode, u, dptr != 0, mptr != 0),
                           Writing(off, dptr, mptr, d.bars[bar].bytes, stale, MASK_ALL, Going), n);
        WriteResult(WithBytes(d, bar, r.bytes), r.off - off, r.data)
  }
}
