/**
 The arithmetic of clipped transfers, and the split law of the two transfer loops.
 */
module TransferLaws {
  import opened RegisterWords
  import opened TransferSpec

  // ----- containment and the clip identity -----

  /** Every register a call can touch is aligned and lies in the first end-start bytes of its BAR. */
  lemma Contained(total: nat, off: nat, w: Width, count: nat, k: nat)
    requires off % w == 0 && k < Clip(total, off, w, count)
    ensures (off + k * w) % w == 0 && off + k * w + w <= total && k < count
  {
    if w == 1 {
    } else if w == 2 {
    } else {
    }
  }

  /** The converse: the clip drops no register that still fits. */
  lemma ClipIsLargest(total: nat, off: nat, w: Width, count: nat, k: nat)
    requires k < count && off + k * w + w <= total
    ensures k < Clip(total, off, w, count)
  {
    if w == 1 {
    } else if w == 2 {
    } else {
    }
  }

  /** Clipping a + b registers is clipping a, and clipping b after them. */
  lemma ClipSplit(total: nat, off: nat, w: Width, a: nat, b: nat)
    requires a <= Clip(total, off, w, a + b)
    ensures Clip(total, off, w, a) == a
    ensures Clip(total, off, w, a + b) == a + Clip(total, off + Span(w, a), w, b)
  {
    SpanIs(w, a);
    if w == 1 {
    } else if w == 2 {
    } else {
    }
  }

  // ----- the split law -----

  lemma {:induction false} SpanSum(w: Width, a: nat, b: nat)
    ensures Span(w, a + b) == Span(w, a) + Span(w, b)
  {
    if a > 0 {
      SpanSum(w, a - 1, b);
    }
  }

  /** Reading a + b registers is reading a and then b more. */
  lemma {:induction false} ReadLoopSplit(j: ReadJob, s: Reading, a: nat, b: nat)
    requires s.off + Span(j.w, a + b) <= |j.m|
    ensures s.off + Span(j.w, a) <= |j.m|
    ensures var mid := ReadLoop(j, s, a);
      mid.off + Span(j.w, b) <= |j.m| && ReadLoop(j, s, a + b) == ReadLoop(j, mid, b)
    decreases a
  {
    SpanSum(j.w, a, b);
    if a > 0 {
      hide ReadOne;
      var s' := ReadOne(j, s);
      OneReadAdvances(j, s);
      ReadLoopSplit(j, s', a - 1, b);
      assert a + b - 1 == a - 1 + b;
    }
  }

  lemma OneReadAdvances(j: ReadJob, s: Reading)
    requires s.off + j.w <= |j.m|
    ensures s.off <= ReadOne(j, s).off <= s.off + j.w
  {
  }

  lemma {:induction false} WriteLoopSplit(j: WriteJob, s: Writing, a: nat, b: nat)
    requires s.off + Span(j.w, a + b) <= |s.bytes|
    ensures s.off + Span(j.w, a) <= |s.bytes|
    ensures var mid := WriteLoop(j, s, a);
      mid.off + Span(j.w, b) <= |mid.bytes| && WriteLoop(j, s, a + b) == WriteLoop(j, mid, b)
    decreases a
  {
    SpanSum(j.w, a, b);
    if a > 0 {
      hide WriteOne;
      var s' := WriteOne(j, s);
      OneWriteAdvances(j, s);
      WriteLoopSplit(j, s', a - 1, b);
      assert a + b - 1 == a - 1 + b;
    }
  }

  lemma OneWriteAdvances(j: WriteJob, s: Writing)
    requires s.off + j.w <= |s.bytes|
    ensures s.off <= WriteOne(j, s).off <= s.off + j.w
  {
  }
}
