/**
 The split law for any two calls, and the exact role of the uninitialised temporaries: when does a transfer depend on
 what its temporary held before?
 */
module TransferSplit {
  import opened RegisterWords
  import opened TransferSpec
  import opened TransferMeaning
  import opened TransferCalls

  // ----- reads -----

  predicate Shown(j: ReadJob, u: UserMem, ptr: nat) {
    !j.toUser || Readable(u, ptr, j.w)
  }

  /**
   A read of n registers depends on its temporary: the link is down and a narrow register of all ones is compared before
   the upper bytes of the temporary are overwritten. Only the 16-bit swap overwrites them.
   */
  predicate TmpMatters(j: ReadJob, u: UserMem, off: nat, ptr: nat, n: nat)
    requires off + Span(j.w, n) <= |j.m|
    decreases n
  {
    n > 0 && j.linkDown && j.w < 4 &&
    (Reg(j.m, off, j.w) == Ones(j.w) ||
     (!(j.w == 2 && j.swap) && Shown(j, u, ptr) && TmpMatters(j, u, off + j.w, ptr + j.w, n - 1)))
  }

  /** Two reads that ended alike but for their temporaries. */
  predicate SameEnd(r: Reading, r': Reading) {
    r'.off == r.off && r'.ptr == r.ptr && r'.user == r.user && r'.status == r.status
  }

  lemma {:induction false} TmpMattersFrame(j: ReadJob, u: UserMem, u': UserMem, off: nat, ptr: nat, n: nat)
    requires off + Span(j.w, n) <= |j.m| && u.Keys == u'.Keys
    ensures TmpMatters(j, u, off, ptr, n) <==> TmpMatters(j, u', off, ptr, n)
    decreases n
  {
    hide Reg, Ones, Readable;
    if n > 0 {
      SameReach(u, u', ptr, j.w);
      TmpMattersFrame(j, u, u', off + j.w, ptr + j.w, n - 1);
    }
  }

  /** The comparison with all ones needs the register to be all ones and the upper bytes to be clear. */
  lemma ComparesUpper(tmp: Word, reg: seq<bv8>, w: Width)
    requires |reg| == w
    ensures Patch(tmp, reg) == AllOnes(w) <==> reg == Ones(w) && forall i :: w <= i < 4 ==> tmp[i] == 0
  {
    assert Patch(tmp, reg)[..w] == reg && AllOnes(w)[..w] == Ones(w);
    assert forall i :: w <= i < 4 ==> Patch(tmp, reg)[i] == tmp[i] && AllOnes(w)[i] == 0;
  }

  /** What a round leaves in the temporary: low bytes from the register, upper bytes kept, or cleared by a 16-bit swap. */
  lemma LeftInTmp(tmp: Word, tmp': Word, reg: seq<bv8>, w: Width, swap: bool)
    requires |reg| == w
    ensures var s, s' := Shift(tmp, reg, w, swap), Shift(tmp', reg, w, swap);
      && s[..w] == s'[..w]
      && (w == 4 || (w == 2 && swap) ==> s == s')
      && (!(w == 4 || (w == 2 && swap)) ==> s[w..] == tmp[w..] && s'[w..] == tmp'[w..])
    ensures w == 4 ==> Patch(tmp, reg) == Patch(tmp', reg)
  {
  }

  /** One round with two different temporaries. */
  lemma RoundsApart(j: ReadJob, s: Reading, tmp: Word)
    requires s.status.Going? && s.off + j.w <= |j.m|
    requires !(j.linkDown && j.w < 4 && Reg(j.m, s.off, j.w) == Ones(j.w))
    ensures var r, r' := ReadOne(j, s), ReadOne(j, s.(tmp := tmp));
      && SameEnd(r, r') && r.user.Keys == s.user.Keys
      && (if r.status.Going? then Shown(j, s.user, s.ptr) && r.off == s.off + j.w && r.ptr == s.ptr + j.w else r.off == s.off)
      && (r.status.Going? && (j.w == 4 || (j.w == 2 && j.swap)) ==> r == r')
      && (r.status.Going? && !(j.w == 4 || (j.w == 2 && j.swap)) ==> r.tmp[j.w..] == s.tmp[j.w..] && r'.tmp[j.w..] == tmp[j.w..])
  {
    hide SwapTmp, AllOnes, Ones, Readable, Put, Patch;
    var reg := Reg(j.m, s.off, j.w);
    ComparesUpper(s.tmp, reg, j.w);
    ComparesUpper(tmp, reg, j.w);
    LeftInTmp(s.tmp, tmp, reg, j.w, j.swap);
    if j.toUser && Readable(s.user, s.ptr, j.w) {
      PutKeys(s.user, s.ptr, Shift(s.tmp, reg, j.w, j.swap)[..j.w]);
    }
  }

  function Shift(tmp: Word, reg: seq<bv8>, w: Width, swap: bool): Word
    requires |reg| == w
  {
    if swap then SwapTmp(w, Patch(tmp, reg)) else Patch(tmp, reg)
  }

  lemma PutKeys(u: UserMem, p: nat, b: seq<bv8>)
    requires Readable(u, p, |b|)
    ensures Put(u, p, b).Keys == u.Keys
  {
  }

  /** Where the temporary does not matter, any two temporaries give the same read. */
  lemma {:induction false} ReadTmpFree(j: ReadJob, s: Reading, tmp: Word, n: nat)
    requires s.status.Going? && s.off + Span(j.w, n) <= |j.m| && !TmpMatters(j, s.user, s.off, s.ptr, n)
    ensures SameEnd(ReadLoop(j, s, n), ReadLoop(j, s.(tmp := tmp), n))
    decreases n
  {
    hide ReadOne, Reg, Ones, Shown;
    if n > 0 {
      RoundsApart(j, s, tmp);
      var r, r' := ReadOne(j, s), ReadOne(j, s.(tmp := tmp));
      assert r' == r.(tmp := r'.tmp);
      if !r.status.Going? {
        StoppedRead(j, r, n - 1);
        StoppedRead(j, r', n - 1);
      } else if !(j.w == 4 || (j.w == 2 && j.swap)) || r != r' {
        TmpMattersFrame(j, s.user, r.user, r.off, r.ptr, n - 1);
        ReadTmpFree(j, r, r'.tmp, n - 1);
      }
    }
  }

  /** Where it matters, clear upper bytes lose the link and others do not, or later. */
  lemma {:induction false} ReadTmpDecides(j: ReadJob, s: Reading, tmp: Word, n: nat)
    requires s.status.Going? && s.off + Span(j.w, n) <= |j.m| && TmpMatters(j, s.user, s.off, s.ptr, n)
    requires (forall i :: j.w <= i < 4 ==> s.tmp[i] == 0) && tmp[3] != 0
    ensures var r, r' := ReadLoop(j, s, n), ReadLoop(j, s.(tmp := tmp), n);
      r.status.LinkLost? && (r'.status.LinkLost? ==> r.off < r'.off)
    decreases n
  {
    hide ReadOne, Reg, Ones, Shown;
    var r, r' := ReadOne(j, s), ReadOne(j, s.(tmp := tmp));
    if Reg(j.m, s.off, j.w) == Ones(j.w) {
      AllOnesRound(j, s, tmp);
      StoppedRead(j, r, n - 1);
      if !r'.status.Going? {
        StoppedRead(j, r', n - 1);
      }
    } else {
      RoundsApart(j, s, tmp);
      PassesRound(j, s);
      assert r' == r.(tmp := r'.tmp);
      UpperKept(r.tmp, s.tmp, r'.tmp, tmp, j.w);
      TmpMattersFrame(j, s.user, r.user, r.off, r.ptr, n - 1);
      ReadTmpDecides(j, r, r'.tmp, n - 1);
    }
  }

  lemma UpperKept(t: Word, s: Word, t': Word, s': Word, w: Width)
    requires w < 4 && t[w..] == s[w..] && t'[w..] == s'[w..]
    ensures (forall i :: w <= i < 4 ==> t[i] == s[i]) && t'[3] == s'[3]
  {
    assert forall i :: w <= i < 4 ==> t[i] == t[w..][i - w] && s[i] == s[w..][i - w];
    assert t'[3] == t'[w..][3 - w] && s'[3] == s'[w..][3 - w];
  }

  lemma AllOnesRound(j: ReadJob, s: Reading, tmp: Word)
    requires s.status.Going? && s.off + j.w <= |j.m| && j.linkDown && j.w < 4 && Reg(j.m, s.off, j.w) == Ones(j.w)
    requires (forall i :: j.w <= i < 4 ==> s.tmp[i] == 0) && tmp[3] != 0
    ensures var r, r' := ReadOne(j, s), ReadOne(j, s.(tmp := tmp));
      && r.status.LinkLost? && r.off == s.off && !r'.status.LinkLost? && r'.off == s.off + if r'.status.Going? then j.w else 0
  {
    ComparesUpper(s.tmp, Reg(j.m, s.off, j.w), j.w);
    ComparesUpper(tmp, Reg(j.m, s.off, j.w), j.w);
    hide AllOnes, Ones, Readable, SwapTmp;
  }

  lemma PassesRound(j: ReadJob, s: Reading)
    requires s.status.Going? && s.off + j.w <= |j.m| && Reg(j.m, s.off, j.w) != Ones(j.w) && Shown(j, s.user, s.ptr)
    ensures ReadOne(j, s).status.Going?
  {
    ComparesUpper(s.tmp, Reg(j.m, s.off, j.w), j.w);
    hide AllOnes, Ones, Readable, SwapTmp;
  }

  /** A read depends on what its temporary held if and only if `TmpMatters`. */
  lemma TmpMattersIff(j: ReadJob, s: Reading, n: nat)
    requires s.status.Going? && s.off + Span(j.w, n) <= |j.m|
    ensures TmpMatters(j, s.user, s.off, s.ptr, n) <==>
      exists t: Word, t': Word :: !SameEnd(ReadLoop(j, s.(tmp := t), n), ReadLoop(j, s.(tmp := t'), n))
  {
    hide ReadLoop, Span, SameEnd;
    if TmpMatters(j, s.user, s.off, s.ptr, n) {
      var t: Word, t': Word := [0, 0, 0, 0], [1, 1, 1, 1];
      Differ(j, s, t, t', n);
    } else {
      forall t: Word, t': Word ensures SameEnd(ReadLoop(j, s.(tmp := t), n), ReadLoop(j, s.(tmp := t'), n)) {
        ReadTmpFree(j, s.(tmp := t), t', n);
      }
    }
  }

  lemma Differ(j: ReadJob, s: Reading, t: Word, t': Word, n: nat)
    requires s.status.Going? && s.off + Span(j.w, n) <= |j.m| && TmpMatters(j, s.user, s.off, s.ptr, n)
    requires t == [0, 0, 0, 0] && t' == [1, 1, 1, 1]
    ensures !SameEnd(ReadLoop(j, s.(tmp := t), n), ReadLoop(j, s.(tmp := t'), n))
  {
    hide ReadLoop, Span, TmpMatters;
    ReadTmpDecides(j, s.(tmp := t), t', n);
  }

  // ----- read calls -----

  /** A read call depends on its temporary. */
  predicate CallTmpMatters(d: Dev, size: RegSize, bar: nat, off: nat, u: UserMem, ptr: nat, count: nat, stale: Stale)
    requires DevOk(d) && ScratchInRange(d) && bar < NUMBER_OF_BARS
  {
    Accepted(d, size, bar, off) && 0 < Count(d, size, bar, off, count) &&
    (ClipFits(Total(d.bars[bar]), off, Bytes(size), count);
     TmpMatters(ReadJobOf(d, size, bar, ptr, stale), u, off, ptr, Count(d, size, bar, off, count)))
  }

  lemma ReadStale(d: Dev, size: RegSize, bar: nat, off: nat, u: UserMem, ptr: nat, count: nat, stale: Stale, stale': Stale)
    requires DevOk(d) && ScratchInRange(d) && bar < NUMBER_OF_BARS
    requires LinkDown(d, stale'.scratch) == LinkDown(d, stale.scratch)
    requires stale'.tmp == stale.tmp || !CallTmpMatters(d, size, bar, off, u, ptr, count, stale)
    ensures var r, r' := ReadInline(d, size, bar, off, u, ptr, count, stale), ReadInline(d, size, bar, off, u, ptr, count, stale');
      r'.user == r.user && r'.ret == r.ret
  {
    hide ReadLoop, LinkDown, ScratchInRange, Span, TmpMatters;
    if Accepted(d, size, bar, off) && 0 < Count(d, size, bar, off, count) {
      hide ReadInline, Rejected, DevOk, Count;
      ReadCall(d, size, bar, off, u, ptr, count, stale);
      ReadCall(d, size, bar, off, u, ptr, count, stale');
      var j := ReadJobOf(d, size, bar, ptr, stale);
      assert ReadJobOf(d, size, bar, ptr, stale') == j;
      if stale'.tmp != stale.tmp {
        ReadTmpFree(j, Reading(off, ptr, u, stale.tmp, Going), stale'.tmp, Count(d, size, bar, off, count));
      }
    }
  }

  /** Two calls, the second `bytes` further on with temporaries of its own, against one. */
  predicate ReadSplits(d: Dev, size: RegSize, bar: nat, off: nat, u: UserMem, ptr: nat, a: nat, b: nat, bytes: nat,
                       stale: Stale, stale': Stale)
    requires DevOk(d) && bar < NUMBER_OF_BARS && ScratchInRange(d)
  {
    var first := ReadInline(d, size, bar, off, u, ptr, a, stale);
    ReadJoined(ReadInline(d, size, bar, off, u, ptr, a + b, stale), first,
               ReadInline(d, size, bar, off + bytes, first.user, Moved(ptr, bytes), b, stale'), bytes)
  }

  /** The temporaries of the second call do no harm: same link state, and the transfer temporary does not matter or carries on. */
  predicate SecondIndifferent(d: Dev, size: RegSize, bar: nat, off: nat, ptr: nat, b: nat, first: ReadResult, bytes: nat,
                              stale: Stale, stale': Stale)
    requires DevOk(d) && bar < NUMBER_OF_BARS && ScratchInRange(d)
  {
    && LinkDown(d, stale'.scratch) == LinkDown(d, stale.scratch)
    && (stale'.tmp == first.tmp ||
        !CallTmpMatters(d, size, bar, off + bytes, first.user, Moved(ptr, bytes), b, stale.(tmp := first.tmp)))
  }

  /**
   Reading a + b registers in one call is reading a and then b at offset + a * width: same user data, and the
   byte counts add up. If the first call stops early, it is the whole. The second call may find anything in its
   temporary, unless the link is down and it meets a narrow register of all ones.
   */
  lemma ReadSplit(d: Dev, size: RegSize, bar: nat, off: nat, u: UserMem, ptr: nat, a: nat, b: nat, stale: Stale, stale': Stale)
    requires Accepted(d, size, bar, off) && ScratchInRange(d)
    requires a <= Count(d, size, bar, off, a + b)
    requires SecondIndifferent(d, size, bar, off, ptr, b, ReadInline(d, size, bar, off, u, ptr, a, stale), a * Bytes(size), stale, stale')
    ensures ReadSplits(d, size, bar, off, u, ptr, a, b, a * Bytes(size), stale, stale')
  {
    hide ReadInline, LinkDown, ScratchInRange, Count, Rejected, CallTmpMatters, DevOk, Moved;
    ReadSplitResumed(d, size, bar, off, u, ptr, a, b, stale);
    var first := ReadInline(d, size, bar, off, u, ptr, a, stale);
    ReadStale(d, size, bar, off + a * Bytes(size), first.user, Moved(ptr, a * Bytes(size)), b, stale.(tmp := first.tmp), stale');
  }

  /** With the link up, or 32-bit registers, the temporary never matters. */
  lemma UsuallyIndifferent(d: Dev, size: RegSize, bar: nat, off: nat, u: UserMem, ptr: nat, count: nat, stale: Stale)
    requires DevOk(d) && ScratchInRange(d) && bar < NUMBER_OF_BARS
    requires !LinkDown(d, stale.scratch) || size == RW_D32
    ensures !CallTmpMatters(d, size, bar, off, u, ptr, count, stale)
  {
    hide LinkDown;
  }

  // ----- writes -----

  /** Register values that do not come from the data temporary: data is given, or the mode takes none. */
  predicate DataFree(hasData: bool, mode: nat) {
    hasData || (mode != MTCA_SIMPLE_WRITE && mode != MTCA_SET_BITS)
  }

  lemma WriteOneTmp(j: WriteJob, s: Writing, data: Word)
    requires s.off + j.w <= |s.bytes| && DataFree(j.hasData, j.mode)
    ensures var r, r' := WriteOne(j, s), WriteOne(j, s.(data := data)); r' == r.(data := r'.data)
  {
    if s.status.Going? && Feasible(j, s.dptr, s.mptr) {
      LoadTmpLow(j.u, j.hasData, s.dptr, j.w, j.swap, s.data);
      LoadTmpLow(j.u, j.hasData, s.dptr, j.w, j.swap, data);
    }
    hide LoadTmp, View, Fetch, Readable, Store, SetBits, ToggleBits, Patch;
  }

  lemma {:induction false} WriteTmpFree(j: WriteJob, s: Writing, data: Word, n: nat)
    requires s.off + Span(j.w, n) <= |s.bytes| && DataFree(j.hasData, j.mode)
    ensures var r, r' := WriteLoop(j, s, n), WriteLoop(j, s.(data := data), n); r' == r.(data := r'.data)
    decreases n
  {
    hide WriteOne;
    if n > 0 {
      WriteOneTmp(j, s, data);
      var r, r' := WriteOne(j, s), WriteOne(j, s.(data := data));
      OneWriteIn(j, s);
      WriteTmpFree(j, r, r'.data, n - 1);
    }
  }

  lemma OneWriteIn(j: WriteJob, s: Writing)
    requires s.off + j.w <= |s.bytes|
    ensures WriteOne(j, s).off <= s.off + j.w && |WriteOne(j, s).bytes| == |s.bytes|
  {
  }

  /** Without data, a simple write stores what the temporary happens to hold. */
  lemma StaleDataWritten(j: WriteJob, s: Writing)
    requires s.status.Going? && s.off + j.w <= |s.bytes| && j.mode == MTCA_SIMPLE_WRITE && !j.hasData
    requires Feasible(j, s.dptr, s.mptr)
    ensures Reg(WriteOne(j, s).bytes, s.off, j.w) == View(j.swap, s.data[..j.w])
  {
    LoadTmpLow(j.u, j.hasData, s.dptr, j.w, j.swap, s.data);
    StoreFrame(s.bytes, s.off, j.w, View(j.swap, s.data[..j.w]));
    hide LoadTmp, View, Fetch, Readable, Store, Patch;
  }

  lemma WriteStale(d: Dev, size: RegSize, mode: nat, bar: nat, off: nat, u: UserMem, dptr: nat, mptr: nat, count: nat,
                   stale: Word, stale': Word)
    requires DevOk(d) && bar < NUMBER_OF_BARS && mode >= MTCA_SIMPLE_WRITE
    requires stale' == stale || DataFree(dptr != 0, mode)
    ensures var r := WriteInline(d, size, mode, bar, off, u, dptr, mptr, count, stale);
      var r' := WriteInline(d, size, mode, bar, off, u, dptr, mptr, count, stale');
      r'.dev == r.dev && r'.ret == r.ret
  {
    hide WriteLoop, Span, WithBytes;
    if Accepted(d, size, bar, off) && 0 < Count(d, size, bar, off, count) && stale' != stale {
      hide WriteInline, Rejected, Count;
      WriteCall(d, size, mode, bar, off, u, dptr, mptr, count, stale);
      WriteCall(d, size, mode, bar, off, u, dptr, mptr, count, stale');
      WriteTmpFree(WriteJobOf(d, size, mode, u, dptr, mptr), WriteStart(d, bar, off, dptr, mptr, stale), stale',
                   Count(d, size, bar, off, count));
    }
  }

  predicate WriteSplits(d: Dev, size: RegSize, mode: nat, bar: nat, off: nat, u: UserMem, dptr: nat, mptr: nat,
                        a: nat, b: nat, bytes: nat, stale: Word, stale': Word)
    requires DevOk(d) && bar < NUMBER_OF_BARS && mode >= MTCA_SIMPLE_WRITE
  {
    var first := WriteInline(d, size, mode, bar, off, u, dptr, mptr, a, stale);
    WriteJoined(WriteInline(d, size, mode, bar, off, u, dptr, mptr, a + b, stale), first,
                WriteInline(first.dev, size, mode, bar, off + bytes, u, Moved(dptr, bytes), Moved(mptr, bytes), b, stale'), bytes)
  }

  /**
   Writing a + b registers in one call is writing a and then b at offset + a * width: same device state, and the
   byte counts add up, for every write mode; so a block transfer is a chain of single-register transfers. The second
   call may find anything in its temporary, unless data is needed and none was given.
   */
  lemma WriteSplit(d: Dev, size: RegSize, mode: nat, bar: nat, off: nat, u: UserMem, dptr: nat, mptr: nat,
                   a: nat, b: nat, stale: Word, stale': Word)
    requires Accepted(d, size, bar, off) && mode >= MTCA_SIMPLE_WRITE
    requires a <= Count(d, size, bar, off, a + b)
    requires DataFree(dptr != 0, mode) || stale' == WriteInline(d, size, mode, bar, off, u, dptr, mptr, a, stale).data
    ensures WriteSplits(d, size, mode, bar, off, u, dptr, mptr, a, b, a * Bytes(size), stale, stale')
  {
    hide WriteInline, Count, Rejected, DevOk;
    WriteSplitResumed(d, size, mode, bar, off, u, dptr, mptr, a, b, stale);
    var first := WriteInline(d, size, mode, bar, off, u, dptr, mptr, a, stale);
    var bytes := a * Bytes(size);
    WriteStale(first.dev, size, mode, bar, off + bytes, u, Moved(dptr, bytes), Moved(mptr, bytes), b, first.data, stale');
  }
}
