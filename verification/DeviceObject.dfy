/**
 The device structure and the register access code that changes it in place: `Read_Write_Private` on 32-bit
 temporaries, the two transfer loops, the scratch test, and the ioctl commands built on them. Every method is
 proved to compute the function of TransferSpec.dfy or VectorSpec.dfy that describes it.
 */
module DeviceObject {
  import opened RegisterWords
  import opened TransferSpec
  import opened TransferLaws
  import opened TransferMeaning
  import opened TransferCalls
  import opened VectorSpec
  import opened Temporaries

  /** `struct pciedev_dev`, as far as register access goes. */
  class PcieDevice {
    var bars: seq<Bar>
    var swap: bool
    var size: RegSize
    var scratchBar: nat
    var scratchOffset: nat

    ghost function Snapshot(): Dev
      reads this
    {
      Dev(bars, swap, size, scratchBar, scratchOffset)
    }

    ghost predicate Valid()
      reads this
    {
      |bars| == NUMBER_OF_BARS && DevOk(Snapshot())
    }

    /** `Read_Write_Private`: one register through 32-bit temporaries; returns the value temporary. */
    method ReadWritePrivate(regSize: nat, mode: nat, bar: nat, at: nat, value: bv32, mask: bv32) returns (v: bv32)
      requires Valid() && bar < NUMBER_OF_BARS && at + AccessBytes(regSize) <= |bars[bar].bytes|
      modifies this`bars
      ensures Valid()
      ensures var w, m := AccessBytes(regSize), old(bars[bar].bytes);
        && Snapshot() == WithBytes(old(Snapshot()), bar,
             Store(m, at, RegisterAfter(mode, ToBytes(value)[..w], ToBytes(mask)[..w], m[at..at + w])))
        && ToBytes(v) == (if IsWrite(mode) then ToBytes(value) else Patch(ToBytes(value), m[at..at + w]))
      ensures !IsWrite(mode) ==> bars == old(bars)
    {
      hide ToBytes, RegisterAfter, Store, Patch, IsWrite, AccessBytes, DevOk;
      v := AccessWord(AccessBytes(regSize), mode, bar, at, value, mask);
      assert Snapshot() == WithBytes(old(Snapshot()), bar, bars[bar].bytes);
    }

    /** The switch of `Read_Write_Private` for one width. */
    method AccessWord(w: Width, mode: nat, bar: nat, at: nat, value: bv32, mask: bv32) returns (v: bv32)
      requires bar < |bars| && at + w <= |bars[bar].bytes|
      modifies this`bars
      ensures var m := old(bars[bar].bytes);
        var m' := Store(m, at, RegisterAfter(mode, ToBytes(value)[..w], ToBytes(mask)[..w], m[at..at + w]));
        && bars == old(bars)[bar := old(bars[bar]).(bytes := m')] && |m'| == |m|
        && ToBytes(v) == (if IsWrite(mode) then ToBytes(value) else Patch(ToBytes(value), m[at..at + w]))
      ensures !IsWrite(mode) ==> bars == old(bars)
    {
      hide ToBytes, FromBytes, SetBits, ToggleBits, IoRead, Assign, Patch;
      var m := bars[bar].bytes;
      v := value;
      if mode == MTCA_SIMPLE_WRITE {
        m := IoWrite(m, at, w, value);
      } else if mode == MTCA_SET_BITS {
        var x := Merged(w, value, mask, m, at);
        m := IoWrite(m, at, w, x);
      } else if mode == MTCA_SWAP_BITS {
        var x := Toggled(w, mask, m, at);
        m := IoWrite(m, at, w, x);
      } else {
        AssignBytes(value, m, at, w);
        v := Assign(value, w, IoRead(m, at, w));
        assert Store(m, at, m[at..at + w]) == m;
      }
      bars := bars[bar := bars[bar].(bytes := m)];
    }

    /** `pciedev_check_scratch` */
    method CheckScratch(stale: Word) returns (down: bool)
      requires Valid() && ScratchInRange(Snapshot())
      modifies this`bars
      ensures bars == old(bars)
      ensures down <==> LinkDown(Snapshot(), stale)
    {
      if !bars[scratchBar].mapped {
        return true;
      }
      hide ToBytes, FromBytes, RegisterAfter, Store, WithBytes, AllOnes, ScratchTest;
      var test := ScratchTest(Bytes(size));
      WordRoundTrip(stale);
      var tmp := ReadWritePrivate(size, 0, scratchBar, scratchOffset, FromBytes(stale), 0);
      ScratchTestBytes(Bytes(size), tmp);
      down := tmp == test;
    }

    /** The loop of `pciedev_read_inline` over n registers. */
    method ReadRegisters(requested: nat, regSize: RegSize, mode: nat, bar: nat, off: nat, user: UserMem, ptr: nat, n: nat, stale: Stale)
      returns (user': UserMem, ret: int)
      requires Valid() && ScratchInRange(Snapshot()) && bar < NUMBER_OF_BARS && !IsWrite(mode)
      requires AccessBytes(requested) == Bytes(regSize) && off + Span(Bytes(regSize), n) <= |bars[bar].bytes|
      modifies this`bars
      ensures bars == old(bars)
      ensures var r := ReadOutcome(off, ReadLoop(ReadJobOf(Snapshot(), regSize, bar, ptr, stale), Reading(off, ptr, user, stale.tmp, Going), n));
        user' == r.user && ret == r.ret
    {
      hide ToBytes, FromBytes, RegisterAfter, Store, WithBytes, AllOnes, ScratchTest, SwapTot, SwapTmp, LinkDown, ReadOne, ReadLoop, Put, Fetch, Readable, Patch, View, ScratchInRange, Span, IsWrite;
      user', ret := user, 0;
      var w := Bytes(regSize);
      var at: nat, p: nat, tmp := off, ptr, FromBytes(stale.tmp);
      WordRoundTrip(stale.tmp);
      ghost var j := ReadJobOf(Snapshot(), regSize, bar, ptr, stale);
      ghost var s0 := Reading(off, ptr, user, stale.tmp, Going);
      var i := 0;
      while i < n
        invariant 0 <= i <= n && bars == old(bars)
        invariant at + Span(w, n - i) <= |j.m| && ret == at - off
        invariant ReadLoop(j, s0, n) == ReadLoop(j, Reading(at, p, user', ToBytes(tmp), Going), n - i)
      {
        ghost var s := Reading(at, p, user', ToBytes(tmp), Going);
        SpanStep(w, n - i);
        tmp := ReadWritePrivate(requested, mode, bar, at, tmp, tmp);
        ReadRound(j, s, ToBytes(tmp), n - i);
        ScratchTestBytes(w, tmp);
        if tmp == ScratchTest(w) {
          var down := CheckScratch(stale.scratch);
          if down {
            ret := -ENOMEM;
            break;
          }
        }
        if swap {
          SwapTotBytes(w, tmp);
          tmp := SwapTot(w, tmp);
        }
        if ptr != 0 {
          if !Readable(user', p, w) {
            break;
          }
          user' := Put(user', p, ToBytes(tmp)[..w]);
        }
        ret := ret + w;
        i, p, at := i + 1, p + w, at + w;
      }
      if i == n {
        ReadDone(j, Reading(at, p, user', ToBytes(tmp), Going));
      }
    }

    /** `pciedev_read_inline`, for the sizes on which step and access width agree. */
    method Read(requested: nat, mode: nat, bar: nat, off: nat, user: UserMem, ptr: nat, count: nat, stale: Stale)
      returns (user': UserMem, ret: int)
      requires Valid() && ScratchInRange(Snapshot()) && bar < NUMBER_OF_BARS && !IsWrite(mode)
      requires requested <= 2 || size == RW_D32
      modifies this`bars
      ensures bars == old(bars)
      ensures var r := ReadInline(Snapshot(), CorrectSize(requested, size), bar, off, user, ptr, count, stale); user' == r.user && ret == r.ret
    {
      hide ReadLoop, LinkDown, ScratchInRange, Span;
      user', ret := user, 0;
      var regSize := CorrectSize(requested, size);
      WidthsAgree(requested, size);
      var w := Bytes(regSize);
      if !bars[bar].mapped || off % w != 0 {
        ret := -EFAULT;
        return;
      }
      var n := Clipped(bar, off, w, count);
      if n > 0 {
        ReadCall(Snapshot(), regSize, bar, off, user, ptr, count, stale);
        user', ret := ReadRegisters(requested, regSize, mode, bar, off, user, ptr, n, stale);
      }
    }

    /** The bound both transfers put on their count. */
    method Clipped(bar: nat, off: nat, w: Width, count: nat) returns (n: nat)
      requires Valid() && bar < NUMBER_OF_BARS && bars[bar].mapped
      ensures n == Clip(|bars[bar].bytes|, off, w, count)
    {
      var total := (bars[bar].end - bars[bar].base) % TWO32;
      var after := if total > off then total - off else 0;
      n := if count < after / w then count else after / w;
    }

    /** `Read_Write_Private` on a device that so far differs from d in one BAR. */
    method AccessAgain(ghost d: Dev, requested: nat, mode: nat, bar: nat, at: nat, value: bv32, mask: bv32) returns (v: bv32)
      requires Valid() && bar < NUMBER_OF_BARS && at + AccessBytes(requested) <= |bars[bar].bytes|
      requires DevOk(d) && |d.bars[bar].bytes| == |bars[bar].bytes| && Snapshot() == WithBytes(d, bar, bars[bar].bytes)
      modifies this`bars
      ensures Valid() && |bars[bar].bytes| == old(|bars[bar].bytes|) && Snapshot() == WithBytes(d, bar, bars[bar].bytes)
      ensures var w, m := AccessBytes(requested), old(bars[bar].bytes);
        && bars[bar].bytes == Store(m, at, RegisterAfter(mode, ToBytes(value)[..w], ToBytes(mask)[..w], m[at..at + w]))
        && ToBytes(v) == (if IsWrite(mode) then ToBytes(value) else Patch(ToBytes(value), m[at..at + w]))
    {
      hide ToBytes, RegisterAfter, Store, WithBytes, Patch;
      ghost var e := Snapshot();
      ghost var w, m := AccessBytes(requested), bars[bar].bytes;
      ghost var b := RegisterAfter(mode, ToBytes(value)[..w], ToBytes(mask)[..w], m[at..at + w]);
      v := ReadWritePrivate(requested, mode, bar, at, value, mask);
      BarsShape(e, bar, Store(m, at, b));
      WithBytesTwice(d, bar, m, Store(m, at, b));
    }

    /** The loop of `pciedev_write_inline` over n registers. */
    method WriteRegisters(requested: nat, regSize: RegSize, mode: nat, bar: nat, off: nat, user: UserMem, dptr: nat, mptr: nat, n: nat, stale: Word)
      returns (ret: int)
      requires Valid() && bar < NUMBER_OF_BARS && mode >= MTCA_SIMPLE_WRITE
      requires AccessBytes(requested) == Bytes(regSize) && off + Span(Bytes(regSize), n) <= |bars[bar].bytes|
      modifies this`bars
      ensures Valid()
      ensures var d := old(Snapshot());
        var r := WriteLoop(WriteJobOf(d, regSize, mode, user, dptr, mptr), WriteStart(d, bar, off, dptr, mptr, stale), n);
        Snapshot() == WithBytes(d, bar, r.bytes) && ret == r.off - off
    {
      hide ToBytes, FromBytes, RegisterAfter, Store, WithBytes, SwapTot, SwapTmp, CopyIn, LoadTmp, WriteOne, WriteLoop, Fetch, Feasible, Readable, Patch, DevOk, IsWrite, Span;
      ret := 0;
      var w := Bytes(regSize);
      var at: nat, dp: nat, mp: nat := off, dptr, mptr;
      var data, mask := FromBytes(stale), FromBytes(MASK_ALL);
      WordRoundTrip(stale);
      WordRoundTrip(MASK_ALL);
      ghost var d := Snapshot();
      ghost var j := WriteJobOf(d, regSize, mode, user, dptr, mptr);
      ghost var s0 := WriteStart(d, bar, off, dptr, mptr, stale);
      WithSameBytes(d, bar);
      var i := 0;
      while i < n
        invariant 0 <= i <= n && ret == at - off && Valid()
        invariant at + Span(w, n - i) <= |bars[bar].bytes| == |d.bars[bar].bytes|
        invariant Snapshot() == WithBytes(d, bar, bars[bar].bytes)
        invariant WriteLoop(j, s0, n) == WriteLoop(j, Writing(at, dp, mp, bars[bar].bytes, ToBytes(data), ToBytes(mask), Going), n - i)
      {
        ghost var s := Writing(at, dp, mp, bars[bar].bytes, ToBytes(data), ToBytes(mask), Going);
        SpanStep(w, n - i);
        WriteRound(j, s, n - i);
        var ok;
        ok, data, mask := LoadWords(j, dptr != 0, mptr != 0, user, dp, mp, w, swap, data, mask);
        if !ok {
          break;
        }
        WriteFeasible(j, s);
        data := AccessAgain(d, requested, mode, bar, at, data, mask);
        ret := ret + w;
        i, dp, mp, at := i + 1, dp + w, mp + w, at + w;
      }
      if i == n {
        WriteDone(j, Writing(at, dp, mp, bars[bar].bytes, ToBytes(data), ToBytes(mask), Going));
      }
    }

    /** `pciedev_write_inline`, for the sizes on which step and access width agree. */
    method Write(requested: nat, mode: nat, bar: nat, off: nat, user: UserMem, dptr: nat, mptr: nat, count: nat, stale: Word)
      returns (ret: int)
      requires Valid() && bar < NUMBER_OF_BARS && mode >= MTCA_SIMPLE_WRITE && (requested <= 2 || size == RW_D32)
      modifies this`bars
      ensures Valid()
      ensures var r := WriteInline(old(Snapshot()), CorrectSize(requested, size), mode, bar, off, user, dptr, mptr, count, stale);
        Snapshot() == r.dev && ret == r.ret
    {
      hide WriteLoop, Span, WithBytes;
      var regSize := CorrectSize(requested, size);
      WidthsAgree(requested, size);
      var w := Bytes(regSize);
      if !bars[bar].mapped || off % w != 0 {
        return -EFAULT;
      }
      var n := Clipped(bar, off, w, count);
      ret := 0;
      if n > 0 {
        WriteCall(Snapshot(), regSize, mode, bar, off, user, dptr, mptr, count, stale);
        ret := WriteRegisters(requested, regSize, mode, bar, off, user, dptr, mptr, n, stale);
      }
    }

    /** PCIEDEV_SET_BITS and PCIEDEV_SWAP_BITS: one masked write described by a request at `arg`; a toggle takes no data. */
    method MaskedWrite(toggle: bool, user: UserMem, arg: nat, stale: Word) returns (ret: int)
      requires Valid()
      requires Readable(user, arg, REQUEST_BYTES) ==> Decode(Fetch(user, arg, REQUEST_BYTES)).bar < NUMBER_OF_BARS
      modifies this`bars
      ensures Valid()
      ensures !Readable(user, arg, REQUEST_BYTES) ==> ret == -EFAULT && bars == old(bars)
      ensures Readable(user, arg, REQUEST_BYTES) ==>
        var r := Masked(old(Snapshot()), toggle, user, Decode(Fetch(user, arg, REQUEST_BYTES)), stale);
        Snapshot() == r.dev && ret == r.ret
    {
      hide Decode, Fetch, Readable, WriteInline;
      if !Readable(user, arg, REQUEST_BYTES) {
        return -EFAULT;
      }
      var q := Decode(Fetch(user, arg, REQUEST_BYTES));
      ret := Write(CorrectSize(q.size, size), if toggle then MTCA_SWAP_BITS else MTCA_SET_BITS,
                   q.bar, q.offset, user, if toggle then 0 else q.data, q.mask, q.count, stale);
    }

    /** The body of PCIEDEV_VECTOR_RW between Enter and Leave, for `number` requests in the table at `table`. */
    method VectorRW(number: nat, table: nat, user: UserMem, stales: seq<Stale>) returns (user': UserMem, ret: int)
      requires Valid() && ScratchInRange(Snapshot())
      requires |stales| == if Wrap32(number) < 0 then 0 else Wrap32(number)
      requires BarsOk(Session(Snapshot(), user, 0), table, stales)
      modifies this`bars
      ensures Valid()
      ensures Session(Snapshot(), user', ret) == VectorLoop(Session(old(Snapshot()), user, 0), table, stales)
    {
      hide WriteInline, ReadInline, ScratchInRange, DevOk, Decode, Fetch, Readable;
      var max := Wrap32(number);
      ghost var s0 := Session(Snapshot(), user, 0);
      user', ret := user, 0;
      var i, p: nat := 0, table;
      while i < max && Readable(user', p, REQUEST_BYTES)
        invariant 0 <= i && (max >= 0 ==> i <= max) && (max < 0 ==> i == 0)
        invariant Valid() && ScratchInRange(Snapshot())
        invariant BarsOk(Session(Snapshot(), user', ret), p, stales[i..])
        invariant VectorLoop(s0, table, stales) == VectorLoop(Session(Snapshot(), user', ret), p, stales[i..])
        decreases max - i
      {
        ghost var s := Session(Snapshot(), user', ret);
        var q := Decode(Fetch(user', p, REQUEST_BYTES));
        VectorRound(s, p, stales[i..]);
        var res: int;
        var regSize := CorrectSize(q.size, size);
        if q.mode < MTCA_SIMPLE_WRITE {
          user', res := Read(regSize, q.mode, q.bar, q.offset, user', q.data, q.count, stales[i]);
        } else {
          res := Write(regSize, q.mode, q.bar, q.offset, user', q.data, q.mask, q.count, stales[i].tmp);
        }
        ret := Wrap32(ret + res);
        assert stales[i..][1..] == stales[i + 1..];
        i, p := i + 1, p + REQUEST_BYTES;
      }
      VectorDone(Session(Snapshot(), user', ret), p, stales[i..]);
    }

    /** PCIEDEV_SET_REGISTER_SIZE: the stored size is always one of the three widths. */
    method SetRegisterSize(value: int)
      modifies this`size
      ensures AccessBytes(value) == Bytes(size)
    {
      size := CorrectSize(value, RW_D32);
    }

    /** PCIEDEV_SET_SWAP */
    method SetSwap(value: int)
      modifies this`swap
      ensures swap <==> value != 0
    {
      swap := value != 0;
    }
  }

  /** One round of the vector loop. */
  lemma VectorRound(s: Session, p: nat, stales: seq<Stale>)
    requires Ready(s) && BarsOk(s, p, stales) && stales != [] && Readable(s.user, p, REQUEST_BYTES)
    ensures Next(s, p).bar < NUMBER_OF_BARS
    ensures BarsOk(Perform(s, Next(s, p), stales[0]), p + REQUEST_BYTES, stales[1..])
    ensures VectorLoop(s, p, stales) == VectorLoop(Perform(s, Next(s, p), stales[0]), p + REQUEST_BYTES, stales[1..])
  {
    hide Perform, Next, Ready;
  }

  lemma VectorDone(s: Session, p: nat, stales: seq<Stale>)
    requires Ready(s) && BarsOk(s, p, stales) && (stales == [] || !Readable(s.user, p, REQUEST_BYTES))
    ensures VectorLoop(s, p, stales) == s
  {
  }

  /** MTCA_SET_BITS on temporaries: keep the data under the mask and the register elsewhere. */
  method Merge32(value: bv32, mask: bv32, reg: bv32) returns (t: bv32)
    ensures t == SetBits32(value, mask, reg)
  {
    var k, prev := mask, reg;
    t := value;
    t := t & k;
    k := !k;
    prev := prev & k;
    t := t | prev;
  }

  /** MTCA_SWAP_BITS on temporaries: invert the register under the mask. */
  method Toggle32(mask: bv32, reg: bv32) returns (t: bv32)
    ensures t == SwapBits32(mask, reg)
  {
    var k, prev := mask, reg;
    t := !prev;
    t := t & k;
    k := !k;
    prev := prev & k;
    t := t | prev;
  }

  method Merged(w: Width, value: bv32, mask: bv32, m: seq<bv8>, at: nat) returns (t: bv32)
    requires at + w <= |m|
    ensures ToBytes(t)[..w] == SetBits(ToBytes(value)[..w], ToBytes(mask)[..w], m[at..at + w])
  {
    hide ToBytes, FromBytes, SetBits, ToggleBits, Low, IoRead, SetBits32, SwapBits32;
    MaskedBytes(w, value, mask, m, at);
    t := Merge32(Low(w, value), Low(w, mask), IoRead(m, at, w));
  }

  method Toggled(w: Width, mask: bv32, m: seq<bv8>, at: nat) returns (t: bv32)
    requires at + w <= |m|
    ensures ToBytes(t)[..w] == ToggleBits(ToBytes(mask)[..w], m[at..at + w])
  {
    hide ToBytes, FromBytes, SetBits, ToggleBits, Low, IoRead, SetBits32, SwapBits32;
    MaskedBytes(w, mask, mask, m, at);
    t := Toggle32(Low(w, mask), IoRead(m, at, w));
  }

  method FetchTmp(user: UserMem, from: bool, p: nat, w: Width, tmp: bv32) returns (t: bv32)
    requires from ==> Readable(user, p, w)
    ensures ToBytes(t) == if from then Patch(ToBytes(tmp), Fetch(user, p, w)) else ToBytes(tmp)
  {
    t := tmp;
    if from {
      t := CopyIn(tmp, Fetch(user, p, w));
      CopyInBytes(tmp, Fetch(user, p, w));
    }
  }

  /** Fetch data and mask of one register into their temporaries, in the device's byte order. */
  method LoadWords(ghost j: WriteJob, hasData: bool, hasMask: bool, user: UserMem, dp: nat, mp: nat, w: Width, swap: bool,
                   data: bv32, mask: bv32) returns (ok: bool, data': bv32, mask': bv32)
    requires j == WriteJob(w, swap, j.mode, user, hasData, hasMask)
    ensures ok <==> Feasible(j, dp, mp)
    ensures ok ==> ToBytes(data') == LoadTmp(user, hasData, dp, w, swap, ToBytes(data))
    ensures ok ==> ToBytes(mask') == LoadTmp(user, hasMask, mp, w, swap, ToBytes(mask))
  {
    hide ToBytes, FromBytes, Readable, Fetch, Patch, SwapTmp;
    ok, data', mask' := false, data, mask;
    if hasData && !Readable(user, dp, w) {
      return;
    }
    data' := FetchTmp(user, hasData, dp, w, data);
    if hasMask && !Readable(user, mp, w) {
      return;
    }
    mask' := FetchTmp(user, hasMask, mp, w, mask);
    if swap {
      data', mask' := SwapBoth(w, data', mask');
    }
    ok := true;
  }

  method SwapBoth(w: Width, data: bv32, mask: bv32) returns (data': bv32, mask': bv32)
    ensures ToBytes(data') == SwapTmp(w, ToBytes(data)) && ToBytes(mask') == SwapTmp(w, ToBytes(mask))
  {
    hide ToBytes, SwapTot, SwapTmp;
    SwapTotBytes(w, data);
    SwapTotBytes(w, mask);
    data', mask' := SwapTot(w, data), SwapTot(w, mask);
  }

  lemma BarsShape(d: Dev, bar: nat, b: seq<bv8>)
    requires DevOk(d) && bar < NUMBER_OF_BARS && |b| == |d.bars[bar].bytes|
    ensures WithBytes(d, bar, b).bars[bar].bytes == b
  {
  }

  lemma WriteFeasible(j: WriteJob, s: Writing)
    requires s.status.Going? && s.off + j.w <= |s.bytes| && Feasible(j, s.dptr, s.mptr)
    ensures var dat := LoadTmp(j.u, j.hasData, s.dptr, j.w, j.swap, s.data);
      var k := LoadTmp(j.u, j.hasMask, s.mptr, j.w, j.swap, s.mask);
      var prev := s.bytes[s.off..s.off + j.w];
      WriteOne(j, s) == Writing(s.off + j.w, s.dptr + j.w, s.mptr + j.w,
        Store(s.bytes, s.off, RegisterAfter(j.mode, dat[..j.w], k[..j.w], prev)),
        if IsWrite(j.mode) then dat else Patch(dat, prev), k, Going)
  {
    hide LoadTmp, RegisterAfter, Store, Readable, Fetch, Patch;
  }

  /** One round of the write loop. */
  lemma WriteRound(j: WriteJob, s: Writing, n: nat)
    requires s.status.Going? && 0 < n && s.off + Span(j.w, n) <= |s.bytes|
    ensures WriteOne(j, s).off + Span(j.w, n - 1) <= |s.bytes|
    ensures WriteLoop(j, s, n) == WriteLoop(j, WriteOne(j, s), n - 1)
    ensures !Feasible(j, s.dptr, s.mptr) ==> WriteLoop(j, s, n).off == s.off && WriteLoop(j, s, n).bytes == s.bytes
  {
    hide WriteOne, Feasible;
    if Feasible(j, s.dptr, s.mptr) {
      OneWriteAdvances(j, s);
    } else {
      OneWriteStops(j, s);
      StoppedWrite(j, WriteOne(j, s), n - 1);
    }
  }

  lemma SpanStep(w: Width, n: nat)
    requires 0 < n
    ensures Span(w, n) == w + Span(w, n - 1)
  {
  }

  lemma WriteDone(j: WriteJob, s: Writing)
    requires s.off <= |s.bytes|
    ensures WriteLoop(j, s, 0) == s
  {
  }

  lemma ReadDone(j: ReadJob, s: Reading)
    requires s.off <= |j.m|
    ensures ReadLoop(j, s, 0) == s
  {
  }

  /** The ways one round of the read loop ends, on the temporary after the register was read. */
  lemma ReadRound(j: ReadJob, s: Reading, t1: Word, n: nat)
    requires s.status.Going? && 0 < n && s.off + Span(j.w, n) <= |j.m|
    requires t1 == Patch(s.tmp, j.m[s.off..s.off + j.w])
    ensures var lost := t1 == AllOnes(j.w) && j.linkDown;
      var t2 := if j.swap then SwapTmp(j.w, t1) else t1;
      if lost then ReadLoop(j, s, n) == s.(tmp := t1, status := LinkLost)
      else if j.toUser && !Readable(s.user, s.ptr, j.w) then ReadLoop(j, s, n) == s.(tmp := t2, status := Faulted)
      else ReadLoop(j, s, n) == ReadLoop(j, Reading(s.off + j.w, s.ptr + j.w,
             if j.toUser then Put(s.user, s.ptr, t2[..j.w]) else s.user, t2, Going), n - 1)
  {
    hide SwapTmp, Put, Readable, Patch, AllOnes;
    var s' := ReadOne(j, s);
    if !s'.status.Going? {
      StoppedRead(j, s', n - 1);
    }
  }
}
