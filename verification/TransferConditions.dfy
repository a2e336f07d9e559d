/**
 The conditions of the transfer calls, said of the BAR table and of memory bytes: which calls are accepted, how many
 registers they reach, when the link counts as down, and when a read reports it.
 */
module TransferConditions {
  import opened RegisterWords
  import opened TransferSpec
  import opened TransferMeaning
  import opened TransferCalls
  import opened TransferSplit
  import opened TransferRoundTrip

  /** A call is accepted if and only if its BAR is mapped and its offset is a multiple of the width. */
  lemma AcceptedIff(d: Dev, size: RegSize, bar: nat, off: nat)
    requires DevOk(d) && bar < 6
    ensures Accepted(d, size, bar, off) <==>
      d.bars[bar].mapped && off % (if size == 0 then 1 else if size == 1 then 2 else 4) == 0
  {
  }

  /** The registers of a call: as many as asked for, but none that does not fit between offset and end of the BAR. */
  lemma CountIs(d: Dev, size: RegSize, bar: nat, off: nat, count: nat)
    requires DevOk(d) && bar < 6 && d.bars[bar].base <= d.bars[bar].end < d.bars[bar].base + 0x1_0000_0000
    ensures var room := d.bars[bar].end - d.bars[bar].base - off;
      var w := if size == 0 then 1 else if size == 1 then 2 else 4;
      Count(d, size, bar, off, count) == if room <= 0 then 0 else if count < room / w then count else room / w
  {
    assert 0 / Bytes(size) == 0;
  }

  /** User memory cell by cell. */
  lemma MemoryCells(u: UserMem, p: nat, b: seq<bv8>, m: seq<bv8>, a: nat, i: nat)
    requires Readable(u, p, |b|) && a + |b| <= |m|
    ensures i < |b| ==> Fetch(u, p, |b|)[i] == u[p + i] && Put(u, p, b)[p + i] == b[i] && Store(m, a, b)[a + i] == b[i]
    ensures i in u && !(p <= i < p + |b|) ==> Put(u, p, b)[i] == u[i]
    ensures i < |m| && !(a <= i < a + |b|) ==> Store(m, a, b)[i] == m[i]
  {
  }

  /** With 32-bit registers the link is down if and only if the scratch BAR is not mapped or its register is all ones. */
  lemma LinkDownIff(d: Dev, stale: Word)
    requires DevOk(d) && ScratchInRange(d) && d.size == RW_D32
    ensures LinkDown(d, stale) <==>
      !d.bars[d.scratchBar].mapped ||
      d.bars[d.scratchBar].bytes[d.scratchOffset..d.scratchOffset + 4] == [0xFF, 0xFF, 0xFF, 0xFF]
  {
    if d.bars[d.scratchBar].mapped {
      ComparesUpper(stale, d.bars[d.scratchBar].bytes[d.scratchOffset..d.scratchOffset + 4], 4);
      assert Ones(4) == [0xFF, 0xFF, 0xFF, 0xFF];
    }
  }

  /** For any width the upper bytes of the uninitialised temporary have to be clear as well. */
  lemma LinkDownExactly(d: Dev, stale: Word)
    requires DevOk(d) && ScratchInRange(d) && d.bars[d.scratchBar].mapped
    ensures var w := Bytes(d.size);
      LinkDown(d, stale) <==>
        && (forall i :: d.scratchOffset <= i < d.scratchOffset + w ==> d.bars[d.scratchBar].bytes[i] == 0xFF)
        && (forall i :: w <= i < 4 ==> stale[i] == 0)
  {
    var w, m, o := Bytes(d.size), d.bars[d.scratchBar].bytes, d.scratchOffset;
    var reg := m[o..o + w];
    ComparesUpper(stale, reg, w);
    if forall i :: o <= i < o + w ==> m[i] == 0xFF {
      forall i | 0 <= i < w ensures reg[i] == Ones(w)[i] {
        assert reg[i] == m[o + i];
      }
      assert reg == Ones(w);
    }
    if reg == Ones(w) {
      forall i | o <= i < o + w ensures m[i] == 0xFF {
        assert m[i] == reg[i - o];
      }
    }
  }

  /** The words before index i have somewhere to go. */
  ghost predicate ShownBefore(j: ReadJob, u: UserMem, ptr: nat, i: nat) {
    forall k: nat :: k < i ==> Shown(j, u, ptr + Span(j.w, k))
  }

  lemma ShownShift(j: ReadJob, u: UserMem, u': UserMem, ptr: nat, i: nat)
    requires 0 < i && ShownBefore(j, u, ptr, i) && u'.Keys == u.Keys
    ensures Shown(j, u, ptr) && ShownBefore(j, u', ptr + j.w, i - 1)
  {
    hide Readable;
    assert Shown(j, u, ptr + Span(j.w, 0));
    forall k: nat | k < i - 1 ensures Shown(j, u', ptr + j.w + Span(j.w, k)) {
      assert Shown(j, u, ptr + Span(j.w, k + 1));
      SameReach(u, u', ptr + Span(j.w, k + 1), j.w);
    }
  }

  lemma OneWordRound(j: ReadJob, s: Reading)
    requires s.status.Going? && s.off + 4 <= |j.m| && j.w == 4 && j.linkDown && Shown(j, s.user, s.ptr)
    ensures var r := ReadOne(j, s);
      if Reg(j.m, s.off, 4) == Ones(4) then r.status.LinkLost? && r.off == s.off
      else r.status.Going? && r.off == s.off + 4 && r.ptr == s.ptr + 4 && r.user.Keys == s.user.Keys
  {
    ComparesUpper(s.tmp, Reg(j.m, s.off, 4), 4);
    hide AllOnes, Ones, Readable, SwapTmp, Patch;
  }

  /** With the link down, a 32-bit read that gets to an all-ones register loses the link. */
  lemma {:induction false} LinkLostAt(j: ReadJob, s: Reading, n: nat, i: nat)
    requires s.status.Going? && s.off + Span(j.w, n) <= |j.m| && j.w == 4 && j.linkDown && i < n
    requires s.off + Span(4, i) + 4 <= |j.m| && Reg(j.m, s.off + Span(4, i), 4) == Ones(4)
    requires ShownBefore(j, s.user, s.ptr, i + 1)
    ensures ReadLoop(j, s, n).status.LinkLost?
    decreases n
  {
    hide ReadOne, Reg, Ones, Shown, ShownBefore;
    ShownShift(j, s.user, s.user, s.ptr, i + 1);
    OneWordRound(j, s);
    var r := ReadOne(j, s);
    if !r.status.Going? {
      StoppedRead(j, r, n - 1);
    } else if i > 0 {
      ShownShift(j, s.user, r.user, s.ptr, i + 1);
      LinkLostAt(j, r, n - 1, i - 1);
    }
  }

  /** A 32-bit read call with the link down returns -ENOMEM if it gets to an all-ones register. */
  lemma LostCall(d: Dev, bar: nat, off: nat, u: UserMem, ptr: nat, count: nat, stale: Stale, i: nat)
    requires Accepted(d, RW_D32, bar, off) && ScratchInRange(d) && LinkDown(d, stale.scratch)
    requires i < Count(d, RW_D32, bar, off, count) && off + Span(4, i) + 4 <= |d.bars[bar].bytes|
    requires Reg(d.bars[bar].bytes, off + Span(4, i), 4) == [0xFF, 0xFF, 0xFF, 0xFF]
    requires ptr == 0 || forall k: nat :: k <= i ==> Readable(u, ptr + Span(4, k), 4)
    ensures ReadInline(d, RW_D32, bar, off, u, ptr, count, stale).ret == -12
  {
    hide ReadLoop, LinkDown, ReadInline, Count, Ones, Readable, Span, ScratchInRange, ReadJobOf, Reg, Rejected;
    FourOnes();
    ReadCall(d, RW_D32, bar, off, u, ptr, count, stale);
    var j := ReadJobOf(d, RW_D32, bar, ptr, stale);
    ReadJobIs(d, RW_D32, bar, ptr, stale);
    assert j.w == 4;
    forall k: nat | k < i + 1 ensures Shown(j, u, ptr + Span(j.w, k)) {
      assert ptr == 0 || Readable(u, ptr + Span(4, k), 4);
    }
    LinkLostAt(j, Reading(off, ptr, u, stale.tmp, Going), Count(d, RW_D32, bar, off, count), i);
  }

  lemma FourOnes()
    ensures Ones(4) == [0xFF, 0xFF, 0xFF, 0xFF]
  {
  }
}
