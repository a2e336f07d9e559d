/**
 The laws lifted to whole calls of pciedev_read_inline and pciedev_write_inline, which clip the count
 at the end of the BAR, reject unmapped BARs and unaligned offsets, and return byte counts.
 */
module TransferCalls {
  import opened RegisterWords
  import opened TransferSpec
  import opened TransferLaws
  import opened TransferMeaning
  import opened TransferTheorems

  /** Registers a call transfers when nothing stops it. */
  function Count(d: Dev, size: RegSize, bar: nat, off: nat, count: nat): nat
    requires DevOk(d) && bar < NUMBER_OF_BARS
  {
    Clip(Total(d.bars[bar]), off, Bytes(size), count)
  }

  predicate Accepted(d: Dev, size: RegSize, bar: nat, off: nat) {
    DevOk(d) && bar < NUMBER_OF_BARS && !Rejected(d, Bytes(size), bar, off)
  }

  // ----- swap independence -----

  /** The same request on a swapped and on an unswapped device that show the same registers leaves them showing the same. */
  lemma SwapIndependent(j: WriteJob, swap: bool, m: seq<bv8>, m': seq<bv8>, off: nat, dptr: nat, mptr: nat, n: nat,
                        stale: Word, stale': Word, i: nat)
    requires off + Span(j.w, n) <= |m| == |m'| && Complete(j) && i < n
    requires off + Span(j.w, i) + j.w <= |m| && Seen(j, m, off, i) == Seen(j.(swap := swap), m', off, i)
    ensures Seen(j, Block(j, m, off, dptr, mptr, n, stale), off, i) ==
            Seen(j.(swap := swap), Block(j.(swap := swap), m', off, dptr, mptr, n, stale'), off, i)
  {
    hide Block, Seen, Span, After;
    var j' := j.(swap := swap);
    BlockSeen(j, m, off, dptr, mptr, n, stale, i);
    BlockSeen(j', m', off, dptr, mptr, n, stale', i);
    SameAfter(j, j', dptr, mptr, n, i, Seen(j, m, off, i));
  }

  lemma SameAfter(j: WriteJob, j': WriteJob, dptr: nat, mptr: nat, n: nat, i: nat, seen: seq<bv8>)
    requires j' == j.(swap := j'.swap) && Complete(j) && i < n && |seen| == j.w
    ensures After(j, dptr, mptr, n, i, seen) == After(j', dptr, mptr, n, i, seen)
  {
    SameRequest(j, j', dptr, mptr, n);
    hide Leading, SetBits, ToggleBits;
    if i < Leading(j, dptr, mptr, n) {
      LeadingFeasible(j, dptr, mptr, n, i);
    }
  }

  lemma {:induction false} SameRequest(j: WriteJob, j': WriteJob, dptr: nat, mptr: nat, n: nat)
    requires j' == j.(swap := j'.swap)
    ensures Leading(j, dptr, mptr, n) == Leading(j', dptr, mptr, n)
    decreases n
  {
    if n > 0 && Feasible(j, dptr, mptr) {
      SameRequest(j, j', dptr + j.w, mptr + j.w, n - 1);
    }
  }

  // ----- the split law -----

  /** A null pointer stays null; any other pointer moves. */
  function Moved(ptr: nat, step: nat): nat {
    if ptr == 0 then 0 else ptr + step
  }

  /** After a rounds a loop that still runs has moved a registers; one that stopped has moved fewer. */
  lemma {:induction false} ReadAdvance(j: ReadJob, s: Reading, a: nat)
    requires s.status.Going? && s.off + Span(j.w, a) <= |j.m|
    ensures var r := ReadLoop(j, s, a);
      && r.ptr - s.ptr == r.off - s.off
      && (r.status.Going? <==> r.off == s.off + Span(j.w, a))
    decreases a
  {
    if a > 0 {
      var s' := ReadOne(j, s);
      if s'.status.Going? {
        hide ReadOne;
        ReadAdvance(j, s', a - 1) by { assert s'.off == s.off + j.w by { OneReadShown(j, s); } }
        OneReadShown(j, s);
      } else {
        StoppedRead(j, s', a - 1);
      }
    }
  }

  lemma {:induction false} ReadNullPtr(j: ReadJob, s: Reading, ptr: nat, n: nat)
    requires !j.toUser && s.off + Span(j.w, n) <= |j.m|
    ensures var r, r' := ReadLoop(j, s, n), ReadLoop(j, s.(ptr := ptr), n);
      r'.user == r.user && r'.off == r.off && r'.tmp == r.tmp && r'.status == r.status
    decreases n
  {
    if n > 0 {
      var s', t' := ReadOne(j, s), ReadOne(j, s.(ptr := ptr));
      assert t' == s'.(ptr := t'.ptr);
      hide ReadOne;
      ReadNullPtr(j, s', t'.ptr, n - 1);
    }
  }

  function ReadJobOf(d: Dev, size: RegSize, bar: nat, ptr: nat, stale: Stale): ReadJob
    requires DevOk(d) && ScratchInRange(d) && bar < NUMBER_OF_BARS
  {
    ReadJob(d.bars[bar].bytes, Bytes(size), d.swap, LinkDown(d, stale.scratch), ptr != 0)
  }

  function ReadOutcome(off: nat, r: Reading): ReadResult {
    ReadResult(r.user, if r.status.LinkLost? then -ENOMEM else r.off - off, r.tmp)
  }

  /** An accepted call with a positive clipped count is its loop. */
  lemma ReadCall(d: Dev, size: RegSize, bar: nat, off: nat, u: UserMem, ptr: nat, count: nat, stale: Stale)
    requires Accepted(d, size, bar, off) && ScratchInRange(d) && 0 < Count(d, size, bar, off, count)
    ensures var n := Count(d, size, bar, off, count);
      var j := ReadJobOf(d, size, bar, ptr, stale);
      && off + Span(j.w, n) <= |j.m|
      && ReadInline(d, size, bar, off, u, ptr, count, stale) ==
         ReadOutcome(off, ReadLoop(j, Reading(off, ptr, u, stale.tmp, Going), n))
  {
    ClipFits(Total(d.bars[bar]), off, Bytes(size), count);
    hide ReadLoop, LinkDown, ScratchInRange, Clip;
  }

  /** How the result of one call for a + b registers relates to those of two calls. */
  predicate ReadJoined(whole: ReadResult, first: ReadResult, second: ReadResult, bytes: nat) {
    && first.ret <= bytes
    && (first.ret < bytes ==> whole == first)
    && (first.ret == bytes ==>
          && whole.user == second.user
          && whole.ret == (if second.ret < 0 then second.ret else bytes + second.ret))
  }

  lemma ReadOutcomesJoin(off: nat, whole: Reading, first: Reading, second: Reading, bytes: nat)
    requires first.off <= off + bytes && 0 < bytes && (first.status.Going? <==> first.off == off + bytes)
    requires !first.status.Going? ==> whole == first
    requires first.status.Going? ==> whole.user == second.user && whole.off == second.off && whole.status == second.status
    requires first.status.Going? ==> second.off >= off + bytes
    ensures ReadJoined(ReadOutcome(off, whole), ReadOutcome(off, first), ReadOutcome(off + bytes, second), bytes)
  {
  }

  /** The second loop starts where the first one ended. */
  lemma ReadResumes(j: ReadJob, s: Reading, mid: Reading, at: nat, c: nat)
    requires mid.status.Going? && mid.off == s.off + at && mid.ptr == s.ptr + at
    requires (j.toUser <==> s.ptr != 0) && mid.off + Span(j.w, c) <= |j.m|
    ensures var r := ReadLoop(j, mid, c);
      var r' := ReadLoop(j, Reading(s.off + at, Moved(s.ptr, at), mid.user, mid.tmp, Going), c);
      r'.user == r.user && r'.off == r.off && r'.status == r.status
  {
    hide ReadLoop, Span;
    if j.toUser {
      assert mid == Reading(s.off + at, Moved(s.ptr, at), mid.user, mid.tmp, Going);
    } else {
      ReadNullPtr(j, mid, 0, c);
      assert mid.(ptr := 0) == Reading(s.off + at, Moved(s.ptr, at), mid.user, mid.tmp, Going);
    }
  }

  lemma ReadLoopsJoin(j: ReadJob, s: Reading, a: nat, c: nat, at: nat)
    requires s.status.Going? && at == Span(j.w, a) && 0 < at && (j.toUser <==> s.ptr != 0)
    requires Span(j.w, a + c) == at + Span(j.w, c) && s.off + at + Span(j.w, c) <= |j.m|
    ensures var first := ReadLoop(j, s, a);
      var second := ReadLoop(j, Reading(s.off + at, Moved(s.ptr, at), first.user, first.tmp, Going), c);
      ReadJoined(ReadOutcome(s.off, ReadLoop(j, s, a + c)), ReadOutcome(s.off, first), ReadOutcome(s.off + at, second), at)
  {
    hide ReadLoop, Span, ReadJoined, ReadOutcome;
    ReadLoopSplit(j, s, a, c);
    ReadAdvance(j, s, a);
    var mid := ReadLoop(j, s, a);
    var second := ReadLoop(j, Reading(s.off + at, Moved(s.ptr, at), mid.user, mid.tmp, Going), c);
    if mid.status.Going? {
      ReadResumes(j, s, mid, at, c);
    } else {
      StoppedRead(j, mid, c);
    }
    ReadOutcomesJoin(s.off, ReadLoop(j, s, a + c), mid, second, at);
  }

  /** Two calls, the second `bytes` further on with what the first left in its temporary, against one. */
  predicate ReadSplitsResumed(d: Dev, size: RegSize, bar: nat, off: nat, u: UserMem, ptr: nat, a: nat, b: nat, bytes: nat, stale: Stale)
    requires DevOk(d) && bar < NUMBER_OF_BARS && ScratchInRange(d)
  {
    var first := ReadInline(d, size, bar, off, u, ptr, a, stale);
    ReadJoined(ReadInline(d, size, bar, off, u, ptr, a + b, stale), first,
               ReadInline(d, size, bar, off + bytes, first.user, Moved(ptr, bytes), b, stale.(tmp := first.tmp)), bytes)
  }

  /** The second call, unfolded. */
  lemma SecondRead(d: Dev, size: RegSize, bar: nat, off: nat, ptr: nat, b: nat, c: nat, user: UserMem, tmp: Word, at: nat, stale: Stale)
    requires Accepted(d, size, bar, off + at) && ScratchInRange(d) && 0 < c && Count(d, size, bar, off + at, b) == c
    ensures var j := ReadJobOf(d, size, bar, ptr, stale);
      && off + at + Span(j.w, c) <= |j.m|
      && ReadInline(d, size, bar, off + at, user, Moved(ptr, at), b, stale.(tmp := tmp)) ==
         ReadOutcome(off + at, ReadLoop(j, Reading(off + at, Moved(ptr, at), user, tmp, Going), c))
  {
    hide ReadInline, ReadLoop, LinkDown, ScratchInRange, Count, Span, DevOk, Rejected, ReadOutcome;
    ReadCall(d, size, bar, off + at, user, Moved(ptr, at), b, stale.(tmp := tmp));
    assert ReadJobOf(d, size, bar, Moved(ptr, at), stale.(tmp := tmp)) == ReadJobOf(d, size, bar, ptr, stale);
  }

  lemma ReadSplitBoth(d: Dev, size: RegSize, bar: nat, off: nat, u: UserMem, ptr: nat, a: nat, b: nat, c: nat, at: nat, stale: Stale)
    requires Accepted(d, size, bar, off) && ScratchInRange(d) && 0 < a && 0 < c
    requires Count(d, size, bar, off, a) == a && Count(d, size, bar, off, a + b) == a + c
    requires at == Span(Bytes(size), a) && Accepted(d, size, bar, off + at) && Count(d, size, bar, off + at, b) == c
    requires Span(Bytes(size), a + c) == at + Span(Bytes(size), c) && 0 < at
    ensures ReadSplitsResumed(d, size, bar, off, u, ptr, a, b, at, stale)
  {
    hide ReadInline, ReadLoop, LinkDown, ScratchInRange, Count, Span, DevOk, Rejected, ReadJoined, ReadOutcome, ReadJobOf, Moved;
    var j := ReadJobOf(d, size, bar, ptr, stale);
    var s := Reading(off, ptr, u, stale.tmp, Going);
    ReadJobParts(d, size, bar, ptr, stale);
    ReadCall(d, size, bar, off, u, ptr, a, stale);
    ReadCall(d, size, bar, off, u, ptr, a + b, stale);
    var mid := ReadLoop(j, s, a);
    OutcomeParts(off, mid);
    SecondRead(d, size, bar, off, ptr, b, c, mid.user, mid.tmp, at, stale);
    ReadLoopsJoin(j, s, a, c, at);
  }

  lemma ReadJobParts(d: Dev, size: RegSize, bar: nat, ptr: nat, stale: Stale)
    requires DevOk(d) && ScratchInRange(d) && bar < NUMBER_OF_BARS
    ensures var j := ReadJobOf(d, size, bar, ptr, stale); j.w == Bytes(size) && (j.toUser <==> ptr != 0)
  {
  }

  lemma OutcomeParts(off: nat, r: Reading)
    ensures ReadOutcome(off, r).user == r.user && ReadOutcome(off, r).tmp == r.tmp
  {
  }

  /** Nothing is left for the second call. */
  lemma ReadSplitTail(d: Dev, size: RegSize, bar: nat, off: nat, u: UserMem, ptr: nat, a: nat, b: nat, at: nat, stale: Stale)
    requires Accepted(d, size, bar, off) && ScratchInRange(d) && 0 < a
    requires Count(d, size, bar, off, a) == a == Count(d, size, bar, off, a + b)
    requires at == Span(Bytes(size), a) && Accepted(d, size, bar, off + at) && Count(d, size, bar, off + at, b) == 0
    ensures ReadSplitsResumed(d, size, bar, off, u, ptr, a, b, at, stale)
  {
    hide ReadLoop, LinkDown, ScratchInRange, Clip, Span, DevOk;
    ReadCall(d, size, bar, off, u, ptr, a, stale);
    ReadCall(d, size, bar, off, u, ptr, a + b, stale);
    ReadAdvance(ReadJobOf(d, size, bar, ptr, stale), Reading(off, ptr, u, stale.tmp, Going), a);
  }

  /** The split law when the temporary of the second call holds what the first one left. */
  lemma ReadSplitResumed(d: Dev, size: RegSize, bar: nat, off: nat, u: UserMem, ptr: nat, a: nat, b: nat, stale: Stale)
    requires Accepted(d, size, bar, off) && ScratchInRange(d)
    requires a <= Count(d, size, bar, off, a + b)
    ensures ReadSplitsResumed(d, size, bar, off, u, ptr, a, b, a * Bytes(size), stale)
  {
    var w := Bytes(size);
    ClipSplit(Total(d.bars[bar]), off, w, a, b);
    SpanIs(w, a);
    Multiples(off, a, w);
    var c := Count(d, size, bar, off + a * w, b);
    hide ReadLoop, LinkDown, Clip, Span;
    if a == 0 {
      assert off + a * w == off && Moved(ptr, a * w) == ptr;
    } else {
      hide ReadSplitsResumed;
      if c == 0 {
        ReadSplitTail(d, size, bar, off, u, ptr, a, b, a * w, stale);
      } else {
        SpanSum(w, a, c);
        SpanOrder(w, 0, a);
        ReadSplitBoth(d, size, bar, off, u, ptr, a, b, c, a * w, stale);
      }
    }
  }

  lemma Multiples(off: nat, a: nat, w: Width)
    requires off % w == 0
    ensures (off + a * w) % w == 0
  {
    if w == 1 {
    } else if w == 2 {
    } else {
    }
  }

  // ----- the split law for writes -----

  /** Two states of a write loop that differ only in what the loop does not look at. */
  predicate Alike(j: WriteJob, s: Writing, t: Writing) {
    && t.off == s.off && t.bytes == s.bytes && t.data == s.data && t.status == s.status
    && (j.hasData ==> t.dptr == s.dptr)
    && (if j.hasMask then t.mptr == s.mptr else t.mask[..j.w] == s.mask[..j.w])
  }

  lemma AlikeStep(j: WriteJob, s: Writing, t: Writing)
    requires Alike(j, s, t) && s.off + j.w <= |s.bytes|
    ensures Alike(j, WriteOne(j, s), WriteOne(j, t))
  {
    if s.status.Going? && Feasible(j, s.dptr, s.mptr) {
      LoadTmpLow(j.u, j.hasMask, s.mptr, j.w, j.swap, s.mask);
      LoadTmpLow(j.u, j.hasMask, t.mptr, j.w, j.swap, t.mask);
      hide View, SwapTmp, Patch, Fetch, Readable, RegisterAfter, Store;
    }
  }

  lemma {:induction false} AlikeLoop(j: WriteJob, s: Writing, t: Writing, n: nat)
    requires Alike(j, s, t) && s.off + Span(j.w, n) <= |s.bytes|
    ensures Alike(j, WriteLoop(j, s, n), WriteLoop(j, t, n))
    decreases n
  {
    if n > 0 {
      AlikeStep(j, s, t);
      OneWriteAdvances(j, s);
      hide WriteOne, Alike;
      assert WriteOne(j, t).off == WriteOne(j, s).off && WriteOne(j, t).bytes == WriteOne(j, s).bytes by {
        AlikeParts(j, WriteOne(j, s), WriteOne(j, t));
      }
      AlikeLoop(j, WriteOne(j, s), WriteOne(j, t), n - 1);
    }
  }

  lemma AlikeParts(j: WriteJob, s: Writing, t: Writing)
    requires Alike(j, s, t)
    ensures t.off == s.off && t.bytes == s.bytes && t.data == s.data
  {
  }

  /** A round that goes on moves every pointer by the width and keeps an absent mask all ones. */
  lemma OneWriteMoves(j: WriteJob, s: Writing)
    requires s.status.Going? && s.off + j.w <= |s.bytes|
    ensures var s' := WriteOne(j, s);
      if s'.status.Going? then
        && s'.off == s.off + j.w && s'.dptr == s.dptr + j.w && s'.mptr == s.mptr + j.w
        && (!j.hasMask && s.mask[..j.w] == Ones(j.w) ==> s'.mask[..j.w] == Ones(j.w))
      else s'.off == s.off && s'.bytes == s.bytes
  {
    if Feasible(j, s.dptr, s.mptr) {
      LoadTmpLow(j.u, j.hasMask, s.mptr, j.w, j.swap, s.mask);
      ViewOnes(j.swap, j.w);
    }
    hide LoadTmp, View, RegisterAfter, Store, Fetch, Readable, Ones;
  }

  lemma {:induction false} WriteAdvance(j: WriteJob, s: Writing, a: nat)
    requires s.status.Going? && s.off + Span(j.w, a) <= |s.bytes| && (j.hasMask || s.mask[..j.w] == Ones(j.w))
    ensures var r := WriteLoop(j, s, a);
      && (r.status.Going? <==> r.off == s.off + Span(j.w, a))
      && (r.status.Going? ==>
            && r.dptr == s.dptr + Span(j.w, a) && r.mptr == s.mptr + Span(j.w, a)
            && (j.hasMask || r.mask[..j.w] == Ones(j.w)))
    decreases a
  {
    if a > 0 {
      OneWriteMoves(j, s);
      hide WriteOne;
      var s' := WriteOne(j, s);
      if s'.status.Going? {
        WriteAdvance(j, s', a - 1);
      } else {
        StoppedWrite(j, s', a - 1);
      }
    }
  }

  function WriteJobOf(d: Dev, size: RegSize, mode: nat, u: UserMem, dptr: nat, mptr: nat): WriteJob {
    WriteJob(Bytes(size), d.swap, mode, u, dptr != 0, mptr != 0)
  }

  function WriteStart(d: Dev, bar: nat, off: nat, dptr: nat, mptr: nat, stale: Word): Writing
    requires DevOk(d) && bar < NUMBER_OF_BARS
  {
    Writing(off, dptr, mptr, d.bars[bar].bytes, stale, MASK_ALL, Going)
  }

  lemma WriteStartParts(d: Dev, bar: nat, off: nat, dptr: nat, mptr: nat, stale: Word)
    requires DevOk(d) && bar < NUMBER_OF_BARS
    ensures var s := WriteStart(d, bar, off, dptr, mptr, stale); s.off == off && |s.bytes| == |d.bars[bar].bytes|
  {
  }

  lemma WriteJobParts(d: Dev, size: RegSize, mode: nat, u: UserMem, dptr: nat, mptr: nat)
    ensures var j := WriteJobOf(d, size, mode, u, dptr, mptr);
      j.w == Bytes(size) && (j.hasData <==> dptr != 0) && (j.hasMask <==> mptr != 0)
  {
  }

  function WriteOutcome(d: Dev, bar: nat, off: nat, r: Writing): WriteResult
    requires DevOk(d) && bar < NUMBER_OF_BARS && |r.bytes| == |d.bars[bar].bytes|
  {
    WriteResult(WithBytes(d, bar, r.bytes), r.off - off, r.data)
  }

  lemma WriteCall(d: Dev, size: RegSize, mode: nat, bar: nat, off: nat, u: UserMem, dptr: nat, mptr: nat, count: nat, stale: Word)
    requires Accepted(d, size, bar, off) && 0 < Count(d, size, bar, off, count) && mode >= MTCA_SIMPLE_WRITE
    ensures var n := Count(d, size, bar, off, count);
      var j := WriteJobOf(d, size, mode, u, dptr, mptr);
      && off + Span(j.w, n) <= |d.bars[bar].bytes|
      && WriteInline(d, size, mode, bar, off, u, dptr, mptr, count, stale) ==
         WriteOutcome(d, bar, off, WriteLoop(j, WriteStart(d, bar, off, dptr, mptr, stale), n))
  {
    ClipFits(Total(d.bars[bar]), off, Bytes(size), count);
    hide WriteLoop, Clip;
  }

  predicate WriteJoined(whole: WriteResult, first: WriteResult, second: WriteResult, bytes: nat) {
    && first.ret <= bytes
    && (first.ret < bytes ==> whole == first)
    && (first.ret == bytes ==> whole.dev == second.dev && whole.ret == bytes + second.ret)
  }

  lemma WriteLoopsJoin(j: WriteJob, s: Writing, a: nat, c: nat, at: nat)
    requires s.status.Going? && s.mask == MASK_ALL && at == Span(j.w, a)
    requires (j.hasData <==> s.dptr != 0) && (j.hasMask <==> s.mptr != 0)
    requires Span(j.w, a + c) == at + Span(j.w, c) && s.off + at + Span(j.w, c) <= |s.bytes|
    ensures var whole, first := WriteLoop(j, s, a + c), WriteLoop(j, s, a);
      var second := WriteLoop(j, Writing(s.off + at, Moved(s.dptr, at), Moved(s.mptr, at), first.bytes, first.data, MASK_ALL, Going), c);
      && first.off <= s.off + at
      && (first.off < s.off + at ==> whole == first)
      && (first.off == s.off + at ==> whole.off == second.off && whole.bytes == second.bytes && whole.data == second.data)
  {
    assert MASK_ALL[..j.w] == Ones(j.w);
    hide WriteLoop, Span, Ones;
    WriteLoopSplit(j, s, a, c);
    WriteAdvance(j, s, a);
    var mid := WriteLoop(j, s, a);
    if mid.status.Going? {
      WriteResumes(j, s, mid, at, c);
    } else {
      StoppedWrite(j, mid, c);
    }
  }

  /** The second loop starts where the first one ended. */
  lemma WriteResumes(j: WriteJob, s: Writing, mid: Writing, at: nat, c: nat)
    requires mid.status.Going? && mid.off == s.off + at && mid.dptr == s.dptr + at && mid.mptr == s.mptr + at
    requires (j.hasData <==> s.dptr != 0) && (j.hasMask <==> s.mptr != 0) && mid.off + Span(j.w, c) <= |mid.bytes|
    requires j.hasMask || mid.mask[..j.w] == Ones(j.w)
    ensures var r := WriteLoop(j, mid, c);
      var r' := WriteLoop(j, Writing(s.off + at, Moved(s.dptr, at), Moved(s.mptr, at), mid.bytes, mid.data, MASK_ALL, Going), c);
      r'.off == r.off && r'.bytes == r.bytes && r'.data == r.data
  {
    assert MASK_ALL[..j.w] == Ones(j.w);
    hide WriteLoop, Span;
    var t := Writing(s.off + at, Moved(s.dptr, at), Moved(s.mptr, at), mid.bytes, mid.data, MASK_ALL, Going);
    AlikeLoop(j, mid, t, c);
    AlikeParts(j, WriteLoop(j, mid, c), WriteLoop(j, t, c));
  }

  lemma WithSameBytes(d: Dev, bar: nat)
    requires DevOk(d) && bar < NUMBER_OF_BARS
    ensures WithBytes(d, bar, d.bars[bar].bytes) == d
  {
    assert d.bars[bar := d.bars[bar].(bytes := d.bars[bar].bytes)] == d.bars;
  }

  lemma WithBytesTwice(d: Dev, bar: nat, b: seq<bv8>, b': seq<bv8>)
    requires DevOk(d) && bar < NUMBER_OF_BARS && |b| == |b'| == |d.bars[bar].bytes|
    ensures WithBytes(WithBytes(d, bar, b), bar, b') == WithBytes(d, bar, b')
  {
    assert d.bars[bar := d.bars[bar].(bytes := b)][bar := d.bars[bar].(bytes := b')] == d.bars[bar := d.bars[bar].(bytes := b')];
  }

  /** Writing registers changes neither what calls accept nor how they clip. */
  lemma SameShape(d: Dev, bar: nat, b: seq<bv8>, size: RegSize, off: nat, count: nat)
    requires DevOk(d) && bar < NUMBER_OF_BARS && |b| == |d.bars[bar].bytes|
    ensures var d1 := WithBytes(d, bar, b);
      && d1.bars[bar].bytes == b && d1.swap == d.swap
      && (Accepted(d1, size, bar, off) <==> Accepted(d, size, bar, off))
      && Count(d1, size, bar, off, count) == Count(d, size, bar, off, count)
  {
  }

  lemma OutcomesJoin(d: Dev, bar: nat, off: nat, whole: Writing, first: Writing, second: Writing, bytes: nat)
    requires DevOk(d) && bar < NUMBER_OF_BARS && |whole.bytes| == |first.bytes| == |second.bytes| == |d.bars[bar].bytes|
    requires first.off <= off + bytes && (first.off < off + bytes ==> whole == first)
    requires first.off == off + bytes ==> whole.off == second.off && whole.bytes == second.bytes
    ensures WriteJoined(WriteOutcome(d, bar, off, whole), WriteOutcome(d, bar, off, first),
                        WriteOutcome(WithBytes(d, bar, first.bytes), bar, off + bytes, second), bytes)
  {
    WithBytesTwice(d, bar, first.bytes, second.bytes);
    hide WithBytes, DevOk;
  }

  /** Two calls, the second `bytes` further on with what the first left in its temporary, against one. */
  predicate WriteSplitsResumed(d: Dev, size: RegSize, mode: nat, bar: nat, off: nat, u: UserMem, dptr: nat, mptr: nat,
                        a: nat, b: nat, bytes: nat, stale: Word)
    requires DevOk(d) && bar < NUMBER_OF_BARS && mode >= MTCA_SIMPLE_WRITE
  {
    var first := WriteInline(d, size, mode, bar, off, u, dptr, mptr, a, stale);
    WriteJoined(WriteInline(d, size, mode, bar, off, u, dptr, mptr, a + b, stale), first,
                WriteInline(first.dev, size, mode, bar, off + bytes, u, Moved(dptr, bytes), Moved(mptr, bytes), b, first.data), bytes)
  }

  /** The second call, unfolded. */
  lemma SecondCall(d: Dev, size: RegSize, mode: nat, bar: nat, off: nat, u: UserMem, dptr: nat, mptr: nat,
                   b: nat, c: nat, mid: Writing, at: nat)
    requires DevOk(d) && bar < NUMBER_OF_BARS && |mid.bytes| == |d.bars[bar].bytes| && mode >= MTCA_SIMPLE_WRITE && 0 < c
    requires Accepted(d, size, bar, off + at) && Count(d, size, bar, off + at, b) == c
    ensures var j := WriteJobOf(d, size, mode, u, dptr, mptr);
      var t := Writing(off + at, Moved(dptr, at), Moved(mptr, at), mid.bytes, mid.data, MASK_ALL, Going);
      && off + at + Span(j.w, c) <= |mid.bytes|
      && WriteInline(WithBytes(d, bar, mid.bytes), size, mode, bar, off + at, u, Moved(dptr, at), Moved(mptr, at), b, mid.data) ==
         WriteOutcome(WithBytes(d, bar, mid.bytes), bar, off + at, WriteLoop(j, t, c))
  {
    hide WriteInline, WriteLoop, Count, Span, WithBytes, DevOk, Rejected;
    SameShape(d, bar, mid.bytes, size, off + at, b);
    WriteCall(WithBytes(d, bar, mid.bytes), size, mode, bar, off + at, u, Moved(dptr, at), Moved(mptr, at), b, mid.data);
  }

  lemma OutcomeHolds(d: Dev, bar: nat, off: nat, r: Writing)
    requires DevOk(d) && bar < NUMBER_OF_BARS && |r.bytes| == |d.bars[bar].bytes|
    ensures WriteOutcome(d, bar, off, r).dev == WithBytes(d, bar, r.bytes) && WriteOutcome(d, bar, off, r).data == r.data
  {
  }

  lemma WriteSplitBoth(d: Dev, size: RegSize, mode: nat, bar: nat, off: nat, u: UserMem, dptr: nat, mptr: nat,
                       a: nat, b: nat, c: nat, at: nat, stale: Word)
    requires Accepted(d, size, bar, off) && 0 < a && 0 < c && mode >= MTCA_SIMPLE_WRITE
    requires Count(d, size, bar, off, a) == a && Count(d, size, bar, off, a + b) == a + c
    requires at == Span(Bytes(size), a) && Accepted(d, size, bar, off + at) && Count(d, size, bar, off + at, b) == c
    requires Span(Bytes(size), a + c) == at + Span(Bytes(size), c)
    ensures WriteSplitsResumed(d, size, mode, bar, off, u, dptr, mptr, a, b, at, stale)
  {
    hide WriteInline, WriteLoop, Count, Span, WithBytes, DevOk, Rejected, WriteJoined, WriteOutcome, WriteJobOf, Moved;
    var j := WriteJobOf(d, size, mode, u, dptr, mptr);
    var s := WriteStart(d, bar, off, dptr, mptr, stale);
    WriteJobParts(d, size, mode, u, dptr, mptr);
    WriteCall(d, size, mode, bar, off, u, dptr, mptr, a, stale);
    WriteCall(d, size, mode, bar, off, u, dptr, mptr, a + b, stale);
    WriteLoopsJoin(j, s, a, c, at);
    var mid := WriteLoop(j, s, a);
    OutcomeHolds(d, bar, off, mid);
    SecondCall(d, size, mode, bar, off, u, dptr, mptr, b, c, mid, at);
    var t := Writing(off + at, Moved(dptr, at), Moved(mptr, at), mid.bytes, mid.data, MASK_ALL, Going);
    OutcomesJoin(d, bar, off, WriteLoop(j, s, a + c), mid, WriteLoop(j, t, c), at);
  }

  lemma WriteSplitTail(d: Dev, size: RegSize, mode: nat, bar: nat, off: nat, u: UserMem, dptr: nat, mptr: nat,
                       a: nat, b: nat, at: nat, stale: Word)
    requires Accepted(d, size, bar, off) && 0 < a && mode >= MTCA_SIMPLE_WRITE
    requires Count(d, size, bar, off, a) == a == Count(d, size, bar, off, a + b)
    requires at == Span(Bytes(size), a) && Accepted(d, size, bar, off + at) && Count(d, size, bar, off + at, b) == 0
    ensures WriteSplitsResumed(d, size, mode, bar, off, u, dptr, mptr, a, b, at, stale)
  {
    hide WriteInline, WriteLoop, Count, Span, WithBytes, DevOk, Rejected, WriteJobOf, WriteStart, Moved;
    var j := WriteJobOf(d, size, mode, u, dptr, mptr);
    var s := WriteStart(d, bar, off, dptr, mptr, stale);
    WriteJobParts(d, size, mode, u, dptr, mptr);
    WriteStartParts(d, bar, off, dptr, mptr, stale);
    WriteCall(d, size, mode, bar, off, u, dptr, mptr, a, stale);
    WriteCall(d, size, mode, bar, off, u, dptr, mptr, a + b, stale);
    var mid := WriteLoop(j, s, a);
    SameShape(d, bar, mid.bytes, size, off + at, b);
    EmptyWrite(WithBytes(d, bar, mid.bytes), size, mode, bar, off + at, u, Moved(dptr, at), Moved(mptr, at), b, mid.data);
  }

  lemma EmptyWrite(d: Dev, size: RegSize, mode: nat, bar: nat, off: nat, u: UserMem, dptr: nat, mptr: nat, count: nat, stale: Word)
    requires Accepted(d, size, bar, off) && Count(d, size, bar, off, count) == 0 && mode >= MTCA_SIMPLE_WRITE
    ensures WriteInline(d, size, mode, bar, off, u, dptr, mptr, count, stale) == WriteResult(d, 0, stale)
  {
  }

  /** The split law when the temporary of the second call holds what the first one left. */
  lemma WriteSplitResumed(d: Dev, size: RegSize, mode: nat, bar: nat, off: nat, u: UserMem, dptr: nat, mptr: nat,
                   a: nat, b: nat, stale: Word)
    requires Accepted(d, size, bar, off) && mode >= MTCA_SIMPLE_WRITE
    requires a <= Count(d, size, bar, off, a + b)
    ensures WriteSplitsResumed(d, size, mode, bar, off, u, dptr, mptr, a, b, a * Bytes(size), stale)
  {
    var w := Bytes(size);
    ClipSplit(Total(d.bars[bar]), off, w, a, b);
    SpanIs(w, a);
    Multiples(off, a, w);
    var c := Count(d, size, bar, off + a * w, b);
    hide WriteLoop, Clip, Span;
    if a == 0 {
      assert off + a * w == off && Moved(dptr, a * w) == dptr && Moved(mptr, a * w) == mptr;
    } else {
      hide WriteSplitsResumed;
      if c == 0 {
        WriteSplitTail(d, size, mode, bar, off, u, dptr, mptr, a, b, a * w, stale);
      } else {
        SpanSum(w, a, c);
        WriteSplitBoth(d, size, mode, bar, off, u, dptr, mptr, a, b, c, a * w, stale);
      }
    }
  }
}
