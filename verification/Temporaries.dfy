/**
 The 32-bit temporaries of the register access code as the source computes with them, and the bytes they stand
 for in TransferSpec.dfy.
 */
module Temporaries {
  import opened RegisterWords
  import opened TransferSpec

  const ZERO: Word := [0, 0, 0, 0]

  /** The low w bytes of a temporary, read through a narrow pointer and widened. */
  function Low(w: Width, x: bv32): bv32 {
    FromBytes(Patch(ZERO, ToBytes(x)[..w]))
  }

  /** ioread8, ioread16 or ioread32. */
  function IoRead(m: seq<bv8>, at: nat, w: Width): bv32
    requires at + w <= |m|
  {
    FromBytes(Patch(ZERO, m[at..at + w]))
  }

  /** iowrite8, iowrite16 or iowrite32. */
  function IoWrite(m: seq<bv8>, at: nat, w: Width, x: bv32): (m': seq<bv8>)
    requires at + w <= |m|
    ensures |m'| == |m|
  {
    Store(m, at, ToBytes(x)[..w])
  }

  lemma LowBytes(w: Width, x: bv32)
    ensures ToBytes(Low(w, x))[..w] == ToBytes(x)[..w]
  {
    hide ToBytes, FromBytes;
    WordRoundTrip(Patch(ZERO, ToBytes(x)[..w]));
  }

  lemma IoReadBytes(m: seq<bv8>, at: nat, w: Width)
    requires at + w <= |m|
    ensures ToBytes(IoRead(m, at, w)) == Patch(ZERO, m[at..at + w])
    ensures ToBytes(IoRead(m, at, w))[..w] == m[at..at + w]
  {
    hide ToBytes, FromBytes;
    WordRoundTrip(Patch(ZERO, m[at..at + w]));
  }

  lemma BitsPrefix(d: seq<bv8>, k: seq<bv8>, p: seq<bv8>, w: nat)
    requires |d| == |k| == |p| && w <= |p|
    ensures SetBits(d, k, p)[..w] == SetBits(d[..w], k[..w], p[..w])
    ensures ToggleBits(k, p)[..w] == ToggleBits(k[..w], p[..w])
  {
    hide SetByte, ToggleByte;
  }

  /** The masked write on widened temporaries has the bytes of the masked write of the register. */
  lemma MaskedBytes(w: Width, d: bv32, k: bv32, m: seq<bv8>, at: nat)
    requires at + w <= |m|
    ensures ToBytes(SetBits32(Low(w, d), Low(w, k), IoRead(m, at, w)))[..w] ==
            SetBits(ToBytes(d)[..w], ToBytes(k)[..w], m[at..at + w])
    ensures ToBytes(SwapBits32(Low(w, k), IoRead(m, at, w)))[..w] == ToggleBits(ToBytes(k)[..w], m[at..at + w])
  {
    hide ToBytes, FromBytes, SetBits32, SwapBits32, SetBits, ToggleBits, Low, IoRead;
    LowBytes(w, d);
    LowBytes(w, k);
    IoReadBytes(m, at, w);
    var d', k', p := Low(w, d), Low(w, k), IoRead(m, at, w);
    BitsBytes(d', k', p);
    BitsPrefix(ToBytes(d'), ToBytes(k'), ToBytes(p), w);
  }

  /** A register read into a temporary replaces its low bytes only. */
  function Assign(tmp: bv32, w: Width, x: bv32): bv32 {
    FromBytes(Patch(ToBytes(tmp), ToBytes(x)[..w]))
  }

  lemma AssignBytes(tmp: bv32, m: seq<bv8>, at: nat, w: Width)
    requires at + w <= |m|
    ensures ToBytes(Assign(tmp, w, IoRead(m, at, w))) == Patch(ToBytes(tmp), m[at..at + w])
  {
    hide ToBytes, FromBytes, IoRead;
    IoReadBytes(m, at, w);
    WordRoundTrip(Patch(ToBytes(tmp), m[at..at + w]));
  }

  /** `UPCIEDEV_SWAP_TOT` */
  function SwapTot(w: Width, x: bv32): bv32 {
    if w == 1 then x else if w == 2 then SwapS(x) else SwapL(x)
  }

  lemma SwapTotBytes(w: Width, x: bv32)
    ensures ToBytes(SwapTot(w, x)) == SwapTmp(w, ToBytes(x))
  {
    hide ToBytes, FromBytes, SwapL, SwapS;
    BytesRoundTrip(x);
    SwapSBytes(ToBytes(x));
    SwapLBytes(ToBytes(x));
  }

  /** copy_from_user into a temporary. */
  function CopyIn(tmp: bv32, b: seq<bv8>): bv32
    requires |b| <= 4
  {
    FromBytes(Patch(ToBytes(tmp), b))
  }

  lemma CopyInBytes(tmp: bv32, b: seq<bv8>)
    requires |b| <= 4
    ensures ToBytes(CopyIn(tmp, b)) == Patch(ToBytes(tmp), b)
  {
    hide ToBytes, FromBytes;
    WordRoundTrip(Patch(ToBytes(tmp), b));
  }

  function ScratchTest(w: Width): bv32 {
    if w == 1 then 0xFF else if w == 2 then 0xFFFF else 0xFFFF_FFFF
  }

  /** The comparison of a temporary with the all-ones pattern, on its bytes. */
  lemma ScratchTestBytes(w: Width, x: bv32)
    ensures x == ScratchTest(w) <==> ToBytes(x) == AllOnes(w)
  {
    ScratchWord(w);
    hide ToBytes, FromBytes, ScratchTest, AllOnes;
    BytesRoundTrip(x);
    BytesRoundTrip(ScratchTest(w));
  }

  lemma ScratchWord(w: Width)
    ensures ToBytes(ScratchTest(w)) == AllOnes(w)
  {
    if w == 1 {
      assert ToBytes(0xFF) == [0xFF, 0, 0, 0];
    } else if w == 2 {
      assert ToBytes(0xFFFF) == [0xFF, 0xFF, 0, 0];
    } else {
      assert ToBytes(0xFFFF_FFFF) == [0xFF, 0xFF, 0xFF, 0xFF];
    }
  }
}
