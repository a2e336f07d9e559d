/**
 The algebra of block writes in the user's byte order: what each register becomes, idempotence, involution and
 commutation, for every offset, count, width and swap flag.
 */
module TransferTheorems {
  import opened RegisterWords
  import opened TransferSpec
  import opened TransferMeaning

  // ----- single bytes -----

  lemma SetByteTwice(d: bv8, k: bv8, p: bv8)
    ensures SetByte(d, k, SetByte(d, k, p)) == SetByte(d, k, p)
  {
  }

  lemma ToggleByteTwice(k: bv8, p: bv8)
    ensures ToggleByte(k, ToggleByte(k, p)) == p
  {
  }

  lemma SetBytesCommute(d1: bv8, k1: bv8, d2: bv8, k2: bv8, p: bv8)
    requires k1 & k2 == 0
    ensures SetByte(d1, k1, SetByte(d2, k2, p)) == SetByte(d2, k2, SetByte(d1, k1, p))
  {
  }

  predicate Disjoint(k1: seq<bv8>, k2: seq<bv8>) {
    |k1| == |k2| && forall i :: 0 <= i < |k1| ==> k1[i] & k2[i] == 0
  }

  lemma SetBitsLaws(d: seq<bv8>, k: seq<bv8>, p: seq<bv8>)
    requires |d| == |k| == |p|
    ensures SetBits(d, k, SetBits(d, k, p)) == SetBits(d, k, p)
    ensures ToggleBits(k, ToggleBits(k, p)) == p
  {
    hide SetByte, ToggleByte;
    forall i | 0 <= i < |p| ensures SetBits(d, k, SetBits(d, k, p))[i] == SetBits(d, k, p)[i] {
      SetByteTwice(d[i], k[i], p[i]);
    }
    forall i | 0 <= i < |p| ensures ToggleBits(k, ToggleBits(k, p))[i] == p[i] {
      ToggleByteTwice(k[i], p[i]);
    }
  }

  lemma SetBitsCommuteOn(d1: seq<bv8>, k1: seq<bv8>, d2: seq<bv8>, k2: seq<bv8>, p: seq<bv8>)
    requires |d1| == |k1| == |d2| == |k2| == |p| && Disjoint(k1, k2)
    ensures SetBits(d1, k1, SetBits(d2, k2, p)) == SetBits(d2, k2, SetBits(d1, k1, p))
  {
    hide SetByte;
    forall i | 0 <= i < |p|
      ensures SetBits(d1, k1, SetBits(d2, k2, p))[i] == SetBits(d2, k2, SetBits(d1, k1, p))[i]
    {
      SetBytesCommute(d1[i], k1[i], d2[i], k2[i], p[i]);
    }
  }

  // ----- blocks of registers -----

  /** The BAR bytes after a block write of n registers. */
  function Block(j: WriteJob, m: seq<bv8>, off: nat, dptr: nat, mptr: nat, n: nat, stale: Word): (m': seq<bv8>)
    requires off + Span(j.w, n) <= |m|
    ensures |m'| == |m|
  {
    WriteLoop(j, Writing(off, dptr, mptr, m, stale, MASK_ALL, Going), n).bytes
  }

  predicate Complete(j: WriteJob) {
    IsWrite(j.mode) && (j.hasData || j.mode == MTCA_SWAP_BITS)
  }

  lemma {:induction false} SpanOrder(w: Width, i: nat, n: nat)
    requires i < n
    ensures Span(w, i) + w <= Span(w, n)
    decreases n
  {
    if i + 1 < n {
      SpanOrder(w, i, n - 1);
    }
  }

  function Seen(j: WriteJob, m: seq<bv8>, off: nat, i: nat): (r: seq<bv8>)
    requires off + Span(j.w, i) + j.w <= |m|
    ensures |r| == j.w
  {
    View(j.swap, Reg(m, off + Span(j.w, i), j.w))
  }

  /** What a block write makes of the i-th register, as the user sees it. */
  function After(j: WriteJob, dptr: nat, mptr: nat, n: nat, i: nat, seen: seq<bv8>): (r: seq<bv8>)
    requires Complete(j) && i < n && |seen| == j.w
    ensures |r| == j.w
  {
    if i < Leading(j, dptr, mptr, n) then
      LeadingFeasible(j, dptr, mptr, n, i);
      Asked(j, dptr + Span(j.w, i), mptr + Span(j.w, i), seen)
    else seen
  }

  lemma BlockMeaning(j: WriteJob, m: seq<bv8>, off: nat, dptr: nat, mptr: nat, n: nat, stale: Word)
    requires off + Span(j.w, n) <= |m| && Complete(j)
    ensures var s := Writing(off, dptr, mptr, m, stale, MASK_ALL, Going);
      BlockWritten(j, s, WriteLoop(j, s, n), n)
  {
    assert MASK_ALL[..j.w] == Ones(j.w);
    WriteMeaning(j, Writing(off, dptr, mptr, m, stale, MASK_ALL, Going), n);
  }

  lemma SeenInside(j: WriteJob, s: Writing, r: Writing, n: nat, i: nat)
    requires BlockWritten(j, s, r, n) && Complete(j) && i < Leading(j, s.dptr, s.mptr, n)
    requires s.off + Span(j.w, i) + j.w <= |s.bytes|
    ensures Seen(j, r.bytes, s.off, i) == After(j, s.dptr, s.mptr, n, i, Seen(j, s.bytes, s.off, i))
  {
    hide Leading, View, Asked, Reg, Feasible, SameOutside, Span;
    assert WrittenAt(j, s, r.bytes, i);
  }

  lemma SeenBehind(j: WriteJob, s: Writing, r: Writing, n: nat, i: nat)
    requires BlockWritten(j, s, r, n) && Complete(j) && Leading(j, s.dptr, s.mptr, n) <= i < n
    requires s.off + Span(j.w, i) + j.w <= |s.bytes|
    ensures Seen(j, r.bytes, s.off, i) == After(j, s.dptr, s.mptr, n, i, Seen(j, s.bytes, s.off, i))
  {
    var c := Leading(j, s.dptr, s.mptr, n);
    if c < i {
      SpanOrder(j.w, c, i);
    }
    hide Leading, View, Asked, Reg, Feasible, SameOutside, Span, WrittenAt;
    RegOutside(s.bytes, r.bytes, s.off, s.off + Span(j.w, c), s.off + Span(j.w, i), j.w);
  }

  /** Register i of the block after the write, as the user sees it. */
  lemma BlockSeen(j: WriteJob, m: seq<bv8>, off: nat, dptr: nat, mptr: nat, n: nat, stale: Word, i: nat)
    requires off + Span(j.w, n) <= |m| && Complete(j) && i < n
    ensures off + Span(j.w, i) + j.w <= |m|
    ensures Seen(j, Block(j, m, off, dptr, mptr, n, stale), off, i) == After(j, dptr, mptr, n, i, Seen(j, m, off, i))
  {
    SpanOrder(j.w, i, n);
    BlockMeaning(j, m, off, dptr, mptr, n, stale);
    hide BlockWritten, Leading, Seen, After, WriteLoop, Span;
    var s := Writing(off, dptr, mptr, m, stale, MASK_ALL, Going);
    if i < Leading(j, dptr, mptr, n) {
      SeenInside(j, s, WriteLoop(j, s, n), n, i);
    } else {
      SeenBehind(j, s, WriteLoop(j, s, n), n, i);
    }
  }

  lemma BlockFrame(j: WriteJob, m: seq<bv8>, off: nat, dptr: nat, mptr: nat, n: nat, stale: Word)
    requires off + Span(j.w, n) <= |m| && Complete(j)
    ensures SameOutside(m, Block(j, m, off, dptr, mptr, n, stale), off, off + Span(j.w, n))
  {
    BlockMeaning(j, m, off, dptr, mptr, n, stale);
    var c := Leading(j, dptr, mptr, n);
    if c < n {
      SpanOrder(j.w, c, n);
    }
    hide Leading, WrittenAt, WriteLoop, Span;
  }

  ghost predicate SameSeen(j: WriteJob, m1: seq<bv8>, m2: seq<bv8>, off: nat, n: nat) {
    |m1| == |m2| &&
    forall i: nat :: i < n ==> off + Span(j.w, i) + j.w <= |m1| && Seen(j, m1, off, i) == Seen(j, m2, off, i)
  }

  /** Two memories that show the same registers and agree elsewhere are the same. */
  lemma {:induction false} SeenDetermines(j: WriteJob, m1: seq<bv8>, m2: seq<bv8>, off: nat, n: nat)
    requires SameOutside(m1, m2, off, off + Span(j.w, n)) && SameSeen(j, m1, m2, off, n)
    ensures m1 == m2
    decreases n
  {
    if n > 0 {
      LastRegister(j, m1, m2, off, n);
      hide SameSeen, SameOutside;
      SeenDetermines(j, m1, m2, off, n - 1);
    }
  }

  lemma LastRegister(j: WriteJob, m1: seq<bv8>, m2: seq<bv8>, off: nat, n: nat)
    requires 0 < n && SameOutside(m1, m2, off, off + Span(j.w, n)) && SameSeen(j, m1, m2, off, n)
    ensures SameOutside(m1, m2, off, off + Span(j.w, n - 1)) && SameSeen(j, m1, m2, off, n - 1)
  {
    var at := off + Span(j.w, n - 1);
    assert Seen(j, m1, off, n - 1) == Seen(j, m2, off, n - 1);
    ViewTwice(j.swap, Reg(m1, at, j.w));
    ViewTwice(j.swap, Reg(m2, at, j.w));
    SpanLast(j.w, n);
    hide View, Reg, SameOutside, Span;
    ShrinkFrame(m1, m2, off, at, j.w);
  }

  lemma {:induction false} SpanLast(w: Width, n: nat)
    requires 0 < n
    ensures Span(w, n) == Span(w, n - 1) + w
  {
  }

  lemma ShrinkFrame(m1: seq<bv8>, m2: seq<bv8>, lo: nat, at: nat, w: Width)
    requires SameOutside(m1, m2, lo, at + w) && at + w <= |m1| == |m2| && Reg(m1, at, w) == Reg(m2, at, w)
    ensures SameOutside(m1, m2, lo, at)
  {
    forall i | at <= i < at + w ensures m1[i] == m2[i] {
      assert m1[i] == Reg(m1, at, w)[i - at] && m2[i] == Reg(m2, at, w)[i - at];
    }
  }

  lemma AfterSetTwice(j: WriteJob, dptr: nat, mptr: nat, n: nat, i: nat, seen: seq<bv8>)
    requires j.hasData && j.mode == MTCA_SET_BITS && i < n && |seen| == j.w
    ensures After(j, dptr, mptr, n, i, After(j, dptr, mptr, n, i, seen)) == After(j, dptr, mptr, n, i, seen)
  {
    hide SetBits, Leading;
    if i < Leading(j, dptr, mptr, n) {
      LeadingFeasible(j, dptr, mptr, n, i);
      SetBitsLaws(Fetch(j.u, dptr + Span(j.w, i), j.w), MaskAt(j, mptr + Span(j.w, i)), seen);
    }
  }

  lemma AfterToggleTwice(j: WriteJob, dptr: nat, mptr: nat, n: nat, i: nat, seen: seq<bv8>)
    requires j.mode == MTCA_SWAP_BITS && i < n && |seen| == j.w
    ensures After(j, dptr, mptr, n, i, After(j, dptr, mptr, n, i, seen)) == seen
  {
    hide ToggleBits, Leading;
    if i < Leading(j, dptr, mptr, n) {
      LeadingFeasible(j, dptr, mptr, n, i);
      var k := MaskAt(j, mptr + Span(j.w, i));
      SetBitsLaws(k, k, seen);
    }
  }

  /** The masks of the i-th register, when both requests reach it, share no bit. */
  predicate MasksApart(j: WriteJob, d1: nat, k1: nat, d2: nat, k2: nat, n: nat, i: nat) {
    i < Leading(j, d1, k1, n) && i < Leading(j, d2, k2, n) ==>
      Readable(j.u, k1 + Span(j.w, i), j.w) && Readable(j.u, k2 + Span(j.w, i), j.w) &&
      Disjoint(Fetch(j.u, k1 + Span(j.w, i), j.w), Fetch(j.u, k2 + Span(j.w, i), j.w))
  }

  lemma AfterSetsCommute(j: WriteJob, d1: nat, k1: nat, d2: nat, k2: nat, n: nat, i: nat, seen: seq<bv8>)
    requires j.hasData && j.hasMask && j.mode == MTCA_SET_BITS && i < n && |seen| == j.w
    requires MasksApart(j, d1, k1, d2, k2, n, i)
    ensures After(j, d2, k2, n, i, After(j, d1, k1, n, i, seen)) == After(j, d1, k1, n, i, After(j, d2, k2, n, i, seen))
  {
    hide SetBits, Leading;
    if i < Leading(j, d1, k1, n) && i < Leading(j, d2, k2, n) {
      LeadingFeasible(j, d1, k1, n, i);
      LeadingFeasible(j, d2, k2, n, i);
      var at := Span(j.w, i);
      SetBitsCommuteOn(Fetch(j.u, d2 + at, j.w), Fetch(j.u, k2 + at, j.w),
                       Fetch(j.u, d1 + at, j.w), Fetch(j.u, k1 + at, j.w), seen);
    }
  }

  /** SET_BITS with fixed data and mask is idempotent, whatever the temporaries held. */
  lemma SetBitsIdempotent(j: WriteJob, m: seq<bv8>, off: nat, dptr: nat, mptr: nat, n: nat, stale: Word, stale': Word)
    requires off + Span(j.w, n) <= |m| && j.hasData && j.mode == MTCA_SET_BITS
    ensures var m1 := Block(j, m, off, dptr, mptr, n, stale); Block(j, m1, off, dptr, mptr, n, stale') == m1
  {
    hide Block, SameOutside, Seen, After, Span;
    var m1 := Block(j, m, off, dptr, mptr, n, stale);
    var m2 := Block(j, m1, off, dptr, mptr, n, stale');
    BlockFrame(j, m1, off, dptr, mptr, n, stale');
    forall i: nat | i < n ensures off + Span(j.w, i) + j.w <= |m1| && Seen(j, m1, off, i) == Seen(j, m2, off, i) {
      BlockSeen(j, m, off, dptr, mptr, n, stale, i);
      BlockSeen(j, m1, off, dptr, mptr, n, stale', i);
      AfterSetTwice(j, dptr, mptr, n, i, Seen(j, m, off, i));
    }
    SeenDetermines(j, m1, m2, off, n);
  }

  /** SWAP_BITS twice with the same mask restores the device. */
  lemma SwapBitsTwice(j: WriteJob, m: seq<bv8>, off: nat, dptr: nat, mptr: nat, n: nat, stale: Word, stale': Word)
    requires off + Span(j.w, n) <= |m| && j.mode == MTCA_SWAP_BITS
    ensures Block(j, Block(j, m, off, dptr, mptr, n, stale), off, dptr, mptr, n, stale') == m
  {
    hide Block, SameOutside, Seen, After, Span;
    var m1 := Block(j, m, off, dptr, mptr, n, stale);
    var m2 := Block(j, m1, off, dptr, mptr, n, stale');
    BlockFrame(j, m, off, dptr, mptr, n, stale);
    BlockFrame(j, m1, off, dptr, mptr, n, stale');
    SameTrans(m, m1, m2, off, off + Span(j.w, n));
    forall i: nat | i < n ensures off + Span(j.w, i) + j.w <= |m| && Seen(j, m, off, i) == Seen(j, m2, off, i) {
      BlockSeen(j, m, off, dptr, mptr, n, stale, i);
      BlockSeen(j, m1, off, dptr, mptr, n, stale', i);
      AfterToggleTwice(j, dptr, mptr, n, i, Seen(j, m, off, i));
    }
    SeenDetermines(j, m, m2, off, n);
  }

  /** Two SET_BITS on the same registers with disjoint masks commute, even when faults cut them short. */
  lemma SetBitsCommute(j: WriteJob, m: seq<bv8>, off: nat, d1: nat, k1: nat, d2: nat, k2: nat, n: nat,
                       s1: Word, s2: Word, s3: Word, s4: Word)
    requires off + Span(j.w, n) <= |m| && j.hasData && j.hasMask && j.mode == MTCA_SET_BITS
    requires forall i: nat :: i < n ==> MasksApart(j, d1, k1, d2, k2, n, i)
    ensures Block(j, Block(j, m, off, d1, k1, n, s1), off, d2, k2, n, s2) ==
            Block(j, Block(j, m, off, d2, k2, n, s3), off, d1, k1, n, s4)
  {
    hide Block, SameOutside, Seen, After, Span, MasksApart;
    var a1, b1 := Block(j, m, off, d1, k1, n, s1), Block(j, m, off, d2, k2, n, s3);
    var a2, b2 := Block(j, a1, off, d2, k2, n, s2), Block(j, b1, off, d1, k1, n, s4);
    var hi := off + Span(j.w, n);
    BlockFrame(j, m, off, d1, k1, n, s1);
    BlockFrame(j, m, off, d2, k2, n, s3);
    BlockFrame(j, a1, off, d2, k2, n, s2);
    BlockFrame(j, b1, off, d1, k1, n, s4);
    SameTrans(m, a1, a2, off, hi);
    SameTrans(m, b1, b2, off, hi);
    SameJoin(m, a2, b2, off, hi);
    forall i: nat | i < n ensures off + Span(j.w, i) + j.w <= |a2| && Seen(j, a2, off, i) == Seen(j, b2, off, i) {
      BlockSeen(j, m, off, d1, k1, n, s1, i);
      BlockSeen(j, m, off, d2, k2, n, s3, i);
      BlockSeen(j, a1, off, d2, k2, n, s2, i);
      BlockSeen(j, b1, off, d1, k1, n, s4, i);
      AfterSetsCommute(j, d1, k1, d2, k2, n, i, Seen(j, m, off, i));
    }
    SeenDetermines(j, a2, b2, off, n);
  }

  lemma SameTrans(m1: seq<bv8>, m2: seq<bv8>, m3: seq<bv8>, lo: nat, hi: nat)
    requires SameOutside(m1, m2, lo, hi) && SameOutside(m2, m3, lo, hi)
    ensures SameOutside(m1, m3, lo, hi)
  {
  }

  lemma SameJoin(m: seq<bv8>, m1: seq<bv8>, m2: seq<bv8>, lo: nat, hi: nat)
    requires SameOutside(m, m1, lo, hi) && SameOutside(m, m2, lo, hi)
    ensures SameOutside(m1, m2, lo, hi)
  {
  }
}
