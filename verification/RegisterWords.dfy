/**
 Register words and their bytes. The driver keeps every register in a 32-bit temporary, whatever the
 register's width; the bit formulas and byte-swap macros below act on such temporaries as the source
 writes them. The transfer loops are specified on the little-endian bytes of the temporaries, and the
 lemmas here show that both descriptions agree, width by width.
 */
module RegisterWords {
  /** A register width in bytes. */
  type Width = w: nat | w == 1 || w == 2 || w == 4 witness 1

  /** RW_D8, RW_D16, RW_D32 */
  type RegSize = r: nat | r <= 2

  const RW_D8: RegSize := 0
  const RW_D16: RegSize := 1
  const RW_D32: RegSize := 2

  /** `CORRECT_REGISTER_SIZE` */
  function CorrectSize(requested: int, default: RegSize): RegSize {
    if requested < 0 || requested >= 3 then default else requested
  }

  /** `__GetRegisterSizeInBytes__` on a valid size. */
  function Bytes(r: RegSize): Width {
    if r == 0 then 1 else if r == 1 then 2 else 4
  }

  /** The width `Read_Write_Private` uses for any size: its switch falls to 32 bits. */
  function AccessBytes(requested: int): Width {
    if requested == RW_D8 then 1 else if requested == RW_D16 then 2 else 4
  }

  /**
   The transfer loops step by the corrected width and access by the switch. The two agree exactly when
   the size is valid or the device default is 32 bits, and always agree on a corrected size.
   */
  lemma WidthsAgree(requested: int, default: RegSize)
    ensures Bytes(CorrectSize(requested, default)) == AccessBytes(requested) <==> 0 <= requested <= 2 || default == RW_D32
    ensures forall r: RegSize :: Bytes(r) == AccessBytes(r) == Bytes(CorrectSize(r, default))
  {
  }

  /** Sizes 0, 1 and 2 stand for 1, 2 and 4 bytes; any other size means the width of the device. */
  lemma SizeCorrected(requested: int, default: RegSize)
    ensures Bytes(CorrectSize(requested, default)) ==
      match requested
      case 0 => 1
      case 1 => 2
      case 2 => 4
      case _ => if default == 0 then 1 else if default == 1 then 2 else 4
    ensures requested < 0 || requested > 2 ==> CorrectSize(requested, default) == default
    ensures AccessBytes(requested) == if requested == 0 then 1 else if requested == 1 then 2 else 4
  {
  }

  // ----- the 32-bit temporaries -----

  /** `UPCIEDEV_SWAPL` */
  function SwapL(x: bv32): bv32 {
    ((x >> 24) & 0x000000FF) | ((x >> 8) & 0x0000FF00) | ((x << 8) & 0x00FF0000) | ((x << 24) & 0xFF000000)
  }

  /** `UPCIEDEV_SWAPS` */
  function SwapS(x: bv32): bv32 {
    ((x >> 8) & 0x00FF) | ((x << 8) & 0xFF00)
  }

  /** MTCA_SET_BITS on temporaries. */
  function SetBits32(data: bv32, mask: bv32, prev: bv32): bv32 {
    (data & mask) | (prev & !mask)
  }

  /** MTCA_SWAP_BITS on temporaries. */
  function SwapBits32(mask: bv32, prev: bv32): bv32 {
    (!prev & mask) | (prev & !mask)
  }

  // ----- their bytes, least significant first -----

  type Word = s: seq<bv8> | |s| == 4 witness [0, 0, 0, 0]

  function Byte0(x: bv32): bv8 { (x & 0xFF) as bv8 }
  function Byte1(x: bv32): bv8 { ((x >> 8) & 0xFF) as bv8 }
  function Byte2(x: bv32): bv8 { ((x >> 16) & 0xFF) as bv8 }
  function Byte3(x: bv32): bv8 { ((x >> 24) & 0xFF) as bv8 }

  function ToBytes(x: bv32): Word {
    [Byte0(x), Byte1(x), Byte2(x), Byte3(x)]
  }

  function FromBytes(b: Word): bv32 {
    (b[0] as bv32) | ((b[1] as bv32) << 8) | ((b[2] as bv32) << 16) | ((b[3] as bv32) << 24)
  }

  /** Assign the low bytes of a temporary; its upper bytes keep what they held. */
  function Patch(tmp: Word, b: seq<bv8>): Word
    requires |b| <= 4
  {
    b + tmp[|b|..]
  }

  function Reverse(b: seq<bv8>): (r: seq<bv8>)
    ensures |r| == |b|
  {
    seq(|b|, i requires 0 <= i < |b| => b[|b| - 1 - i])
  }

  /** `UPCIEDEV_SWAP_TOT` on the bytes of a temporary. */
  function SwapTmp(w: Width, t: Word): Word {
    if w == 1 then t else if w == 2 then [t[1], t[0], 0, 0] else [t[3], t[2], t[1], t[0]]
  }

  /** Register bytes in the user's byte order. */
  function View(swap: bool, b: seq<bv8>): (r: seq<bv8>)
    ensures |r| == |b|
  {
    if swap then Reverse(b) else b
  }

  function SetByte(d: bv8, k: bv8, p: bv8): bv8 {
    (d & k) | (p & !k)
  }

  function ToggleByte(k: bv8, p: bv8): bv8 {
    p ^ k
  }

  /** Under the mask a set takes the bits of the data and a toggle inverts; elsewhere both keep the register. */
  lemma MaskedBits(d: bv8, k: bv8, p: bv8, b: bv8)
    ensures k & b == b ==> SetByte(d, k, p) & b == d & b && ToggleByte(k, p) & b == !p & b
    ensures k & b == 0 ==> SetByte(d, k, p) & b == p & b && ToggleByte(k, p) & b == p & b
  {
  }

  function SetBits(data: seq<bv8>, mask: seq<bv8>, prev: seq<bv8>): (r: seq<bv8>)
    requires |data| == |mask| == |prev|
    ensures |r| == |prev|
  {
    seq(|prev|, i requires 0 <= i < |prev| => SetByte(data[i], mask[i], prev[i]))
  }

  function ToggleBits(mask: seq<bv8>, prev: seq<bv8>): (r: seq<bv8>)
    requires |mask| == |prev|
    ensures |r| == |prev|
  {
    seq(|prev|, i requires 0 <= i < |prev| => ToggleByte(mask[i], prev[i]))
  }

  function Ones(w: nat): (r: seq<bv8>)
    ensures |r| == w
  {
    seq(w, _ => 0xFF)
  }

  // ----- the two descriptions agree -----

  lemma BytesRoundTrip(x: bv32)
    ensures FromBytes(ToBytes(x)) == x
  {
  }

  lemma WordRoundTrip(b: Word)
    ensures ToBytes(FromBytes(b)) == b
  {
  }

  lemma SwapLBytes(b: Word)
    ensures ToBytes(SwapL(FromBytes(b))) == SwapTmp(4, b)
  {
  }

  lemma SwapSBytes(b: Word)
    ensures ToBytes(SwapS(FromBytes(b))) == SwapTmp(2, b)
  {
  }

  lemma BitsOfByte0(d: bv32, k: bv32, p: bv32)
    ensures Byte0(SetBits32(d, k, p)) == SetByte(Byte0(d), Byte0(k), Byte0(p))
    ensures Byte0(SwapBits32(k, p)) == ToggleByte(Byte0(k), Byte0(p))
  {
  }

  lemma BitsOfByte1(d: bv32, k: bv32, p: bv32)
    ensures Byte1(SetBits32(d, k, p)) == SetByte(Byte1(d), Byte1(k), Byte1(p))
    ensures Byte1(SwapBits32(k, p)) == ToggleByte(Byte1(k), Byte1(p))
  {
  }

  lemma BitsOfByte2(d: bv32, k: bv32, p: bv32)
    ensures Byte2(SetBits32(d, k, p)) == SetByte(Byte2(d), Byte2(k), Byte2(p))
    ensures Byte2(SwapBits32(k, p)) == ToggleByte(Byte2(k), Byte2(p))
  {
  }

  lemma BitsOfByte3(d: bv32, k: bv32, p: bv32)
    ensures Byte3(SetBits32(d, k, p)) == SetByte(Byte3(d), Byte3(k), Byte3(p))
    ensures Byte3(SwapBits32(k, p)) == ToggleByte(Byte3(k), Byte3(p))
  {
  }

  lemma FourBytes(d: Word, k: Word, p: Word)
    ensures SetBits(d, k, p) ==
            [SetByte(d[0], k[0], p[0]), SetByte(d[1], k[1], p[1]), SetByte(d[2], k[2], p[2]), SetByte(d[3], k[3], p[3])]
    ensures ToggleBits(k, p) ==
            [ToggleByte(k[0], p[0]), ToggleByte(k[1], p[1]), ToggleByte(k[2], p[2]), ToggleByte(k[3], p[3])]
  {
  }

  lemma BitsOfWord(d: bv32, k: bv32, p: bv32)
    ensures ToBytes(SetBits32(d, k, p)) ==
            [SetByte(Byte0(d), Byte0(k), Byte0(p)), SetByte(Byte1(d), Byte1(k), Byte1(p)),
             SetByte(Byte2(d), Byte2(k), Byte2(p)), SetByte(Byte3(d), Byte3(k), Byte3(p))]
    ensures ToBytes(SwapBits32(k, p)) ==
            [ToggleByte(Byte0(k), Byte0(p)), ToggleByte(Byte1(k), Byte1(p)),
             ToggleByte(Byte2(k), Byte2(p)), ToggleByte(Byte3(k), Byte3(p))]
  {
    BitsOfByte0(d, k, p);
    BitsOfByte1(d, k, p);
    BitsOfByte2(d, k, p);
    BitsOfByte3(d, k, p);
  }

  /** The 32-bit mask formulas of the source act byte by byte; the toggle formula is an exclusive or. */
  lemma BitsBytes(d: bv32, k: bv32, p: bv32)
    ensures ToBytes(SetBits32(d, k, p)) == SetBits(ToBytes(d), ToBytes(k), ToBytes(p))
    ensures ToBytes(SwapBits32(k, p)) == ToggleBits(ToBytes(k), ToBytes(p))
  {
    BitsOfWord(d, k, p);
    FourBytes(ToBytes(d), ToBytes(k), ToBytes(p));
  }

  /** The macro reverses the bytes of the register held in a temporary. */
  lemma SwapTmpReverses(w: Width, t: Word)
    ensures SwapTmp(w, t)[..w] == Reverse(t[..w])
  {
  }
}
