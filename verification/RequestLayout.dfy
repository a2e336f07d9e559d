/**
 The memory layout of a register request, `struct device_ioc_rw`: what a program lays out is what the driver reads.
 */
module RequestLayout {
  import opened VectorSpec

  /** The byte with value x. */
  function Byte(x: nat): bv8
    requires x < 256
  {
    if x == 0 then 0 else Byte(x - 1) + 1
  }

  /** x in n bytes, least significant first. */
  function LittleEndian(x: nat, n: nat): (b: seq<bv8>)
    ensures |b| == n
  {
    if n == 0 then [] else [Byte(x % 256)] + LittleEndian(x / 256, n - 1)
  }

  function Limit(n: nat): nat {
    if n == 0 then 1 else 256 * Limit(n - 1)
  }

  /** A request as a C program stores it: two 16-bit, three 32-bit and two 64-bit fields without padding. */
  function Encode(q: Request): (b: seq<bv8>)
    ensures |b| == REQUEST_BYTES
  {
    LittleEndian(q.size, 2) + LittleEndian(q.mode, 2) + LittleEndian(q.bar, 4) + LittleEndian(q.offset, 4) +
    LittleEndian(q.count, 4) + LittleEndian(q.data, 8) + LittleEndian(q.mask, 8)
  }

  predicate InRange(q: Request) {
    && q.size < Limit(2) && q.mode < Limit(2) && q.bar < Limit(4) && q.offset < Limit(4) && q.count < Limit(4)
    && q.data < Limit(8) && q.mask < Limit(8)
  }

  lemma ByteSuccessor(b: bv8)
    requires b != 255
    ensures (b + 1) as nat == b as nat + 1
  {
  }

  lemma {:induction false} ByteValue(x: nat)
    requires x < 256
    ensures Byte(x) as nat == x
  {
    if x > 0 {
      ByteValue(x - 1);
      ByteSuccessor(Byte(x - 1));
    }
  }

  lemma {:induction false} FieldRoundTrip(x: nat, n: nat)
    requires x < Limit(n)
    ensures Field(LittleEndian(x, n)) == x
    decreases n
  {
    if n > 0 {
      ByteValue(x % 256);
      FieldRoundTrip(x / 256, n - 1);
      assert LittleEndian(x, n)[1..] == LittleEndian(x / 256, n - 1);
    }
  }

  lemma EncodedFields(q: Request)
    ensures var b := Encode(q);
      && b[0..2] == LittleEndian(q.size, 2) && b[2..4] == LittleEndian(q.mode, 2) && b[4..8] == LittleEndian(q.bar, 4)
      && b[8..12] == LittleEndian(q.offset, 4) && b[12..16] == LittleEndian(q.count, 4)
      && b[16..24] == LittleEndian(q.data, 8) && b[24..32] == LittleEndian(q.mask, 8)
  {
  }

  /** The driver reads back every field of a request that fits its C type. */
  lemma RequestRoundTrip(q: Request)
    requires InRange(q)
    ensures Decode(Encode(q)) == q
  {
    hide LittleEndian, Field, Limit, Encode;
    EncodedFields(q);
    FieldRoundTrip(q.size, 2);
    FieldRoundTrip(q.mode, 2);
    FieldRoundTrip(q.bar, 4);
    FieldRoundTrip(q.offset, 4);
    FieldRoundTrip(q.count, 4);
    FieldRoundTrip(q.data, 8);
    FieldRoundTrip(q.mask, 8);
  }
}
