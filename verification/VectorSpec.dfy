/**
 The vector ioctl: a table of register requests in user memory, carried out in order inside one critical
 region. The table is fetched request by request, so an earlier read may overwrite a later request.
 */
module VectorSpec {
  import opened RegisterWords
  import opened TransferSpec
  import opened TransferCalls

  /** `sizeof(device_ioc_rw)` */
  const REQUEST_BYTES: nat := 32

  /** `device_ioc_rw` */
  datatype Request = Request(size: nat, mode: nat, bar: nat, offset: nat, count: nat, data: nat, mask: nat)

  /** A little-endian unsigned field. */
  function Field(b: seq<bv8>): nat {
    if b == [] then 0 else b[0] as nat + 256 * Field(b[1..])
  }

  function Decode(b: seq<bv8>): Request
    requires |b| == REQUEST_BYTES
  {
    Request(Field(b[0..2]), Field(b[2..4]), Field(b[4..8]), Field(b[8..12]), Field(b[12..16]), Field(b[16..24]), Field(b[24..32]))
  }

  /** A sum kept in a C `int`. */
  function Wrap32(x: int): int {
    (x + 0x8000_0000) % TWO32 - 0x8000_0000
  }

  /** What a sequence of requests acts on: the device, the caller's memory and the accumulated result. */
  datatype Session = Session(dev: Dev, user: UserMem, ret: int)

  predicate Ready(s: Session) {
    DevOk(s.dev) && ScratchInRange(s.dev)
  }

  /** The result of one request. */
  datatype Outcome = Outcome(dev: Dev, user: UserMem, ret: int)

  /** One request by itself: modes below MTCA_SIMPLE_WRITE read, the others write. */
  function Single(s: Session, q: Request, stale: Stale): (r: Outcome)
    requires Ready(s) && q.bar < NUMBER_OF_BARS
    ensures DevOk(r.dev)
  {
    var size := CorrectSize(q.size, s.dev.size);
    if q.mode < MTCA_SIMPLE_WRITE then
      var r := ReadInline(s.dev, size, q.bar, q.offset, s.user, q.data, q.count, stale);
      Outcome(s.dev, r.user, r.ret)
    else
      var r := WriteInline(s.dev, size, q.mode, q.bar, q.offset, s.user, q.data, q.mask, q.count, stale.tmp);
      Outcome(r.dev, s.user, r.ret)
  }

  /** The write of PCIEDEV_SET_BITS or PCIEDEV_SWAP_BITS for a request; a toggle takes no data. */
  function Masked(d: Dev, toggle: bool, u: UserMem, q: Request, stale: Word): (r: WriteResult)
    requires DevOk(d) && q.bar < NUMBER_OF_BARS
    ensures DevOk(r.dev)
  {
    WriteInline(d, CorrectSize(q.size, d.size), if toggle then MTCA_SWAP_BITS else MTCA_SET_BITS,
                q.bar, q.offset, u, if toggle then 0 else q.data, q.mask, q.count, stale)
  }

  function Perform(s: Session, q: Request, stale: Stale): (s': Session)
    requires Ready(s) && q.bar < NUMBER_OF_BARS
    ensures Ready(s')
  {
    var r := Single(s, q, stale);
    SingleKeeps(s, q, stale);
    Session(r.dev, r.user, Wrap32(s.ret + r.ret))
  }

  predicate Fetchable(s: Session, ptr: nat) {
    Readable(s.user, ptr, REQUEST_BYTES)
  }

  function Next(s: Session, ptr: nat): Request
    requires Fetchable(s, ptr)
  {
    Decode(Fetch(s.user, ptr, REQUEST_BYTES))
  }

  /** Every request that gets carried out names an existing BAR. */
  predicate BarsOk(s: Session, ptr: nat, stales: seq<Stale>)
    requires Ready(s)
    decreases |stales|
  {
    stales == [] || !Fetchable(s, ptr) ||
    (Next(s, ptr).bar < NUMBER_OF_BARS && BarsOk(Perform(s, Next(s, ptr), stales[0]), ptr + REQUEST_BYTES, stales[1..]))
  }

  /** The loop of PCIEDEV_VECTOR_RW over at most |stales| requests; `stales` gives each call's uninitialised temporaries. */
  function VectorLoop(s: Session, ptr: nat, stales: seq<Stale>): (s': Session)
    requires Ready(s) && BarsOk(s, ptr, stales)
    ensures Ready(s')
    decreases |stales|
  {
    if stales == [] || !Fetchable(s, ptr) then s
    else VectorLoop(Perform(s, Next(s, ptr), stales[0]), ptr + REQUEST_BYTES, stales[1..])
  }

  // ----- what a single request keeps -----

  lemma WithBytesKeeps(d: Dev, bar: nat, b: seq<bv8>)
    requires DevOk(d) && bar < NUMBER_OF_BARS && |b| == |d.bars[bar].bytes|
    ensures ScratchInRange(WithBytes(d, bar, b)) <==> ScratchInRange(d)
    ensures WithBytes(d, bar, b).size == d.size
  {
  }

  lemma WriteKeeps(d: Dev, size: RegSize, mode: nat, bar: nat, off: nat,
                   u: UserMem, dptr: nat, mptr: nat, count: nat, stale: Word)
    requires DevOk(d) && bar < NUMBER_OF_BARS && mode >= MTCA_SIMPLE_WRITE
    ensures var d' := WriteInline(d, size, mode, bar, off, u, dptr, mptr, count, stale).dev;
      d'.size == d.size && (ScratchInRange(d') <==> ScratchInRange(d))
  {
    hide WriteLoop, ScratchInRange, WithBytes, Count, Span;
    if Accepted(d, size, bar, off) && 0 < Count(d, size, bar, off, count) {
      hide WriteInline, Rejected;
      WriteCall(d, size, mode, bar, off, u, dptr, mptr, count, stale);
      var r := WriteLoop(WriteJobOf(d, size, mode, u, dptr, mptr), WriteStart(d, bar, off, dptr, mptr, stale),
                         Count(d, size, bar, off, count));
      WithBytesKeeps(d, bar, r.bytes);
    } else if Accepted(d, size, bar, off) {
      EmptyWrite(d, size, mode, bar, off, u, dptr, mptr, count, stale);
    }
  }

  lemma SingleKeeps(s: Session, q: Request, stale: Stale)
    requires Ready(s) && q.bar < NUMBER_OF_BARS
    ensures var r := Single(s, q, stale); DevOk(r.dev) && ScratchInRange(r.dev) && r.dev.size == s.dev.size
  {
    hide ReadInline, WriteInline, ScratchInRange;
    if q.mode >= MTCA_SIMPLE_WRITE {
      WriteKeeps(s.dev, CorrectSize(q.size, s.dev.size), q.mode, q.bar, q.offset, s.user, q.data, q.mask, q.count, stale.tmp);
    }
  }

  // ----- requests one at a time -----

  /** Requests handed over one by one: the last one acts on what the others left. */
  predicate RunOk(s: Session, qs: seq<Request>, stales: seq<Stale>) {
    Ready(s) && |qs| <= |stales| && forall i :: 0 <= i < |qs| ==> qs[i].bar < NUMBER_OF_BARS
  }

  function OneByOne(s: Session, qs: seq<Request>, stales: seq<Stale>): (s': Session)
    requires RunOk(s, qs, stales)
    ensures Ready(s')
  {
    if qs == [] then s
    else
      var k := |qs| - 1;
      Perform(OneByOne(s, qs[..k], stales), qs[k], stales[k])
  }

  /** The results of the single requests. */
  function Results(s: Session, qs: seq<Request>, stales: seq<Stale>): (r: seq<int>)
    requires RunOk(s, qs, stales)
    ensures |r| == |qs|
  {
    if qs == [] then []
    else
      var k := |qs| - 1;
      Results(s, qs[..k], stales) + [Single(OneByOne(s, qs[..k], stales), qs[k], stales[k]).ret]
  }

  function Sum(r: seq<int>): int {
    if r == [] then 0 else Sum(r[..|r| - 1]) + r[|r| - 1]
  }

  /** The requests a vector call carries out. */
  function Taken(s: Session, ptr: nat, stales: seq<Stale>): (qs: seq<Request>)
    requires Ready(s) && BarsOk(s, ptr, stales)
    ensures RunOk(s, qs, stales)
    decreases |stales|
  {
    if stales == [] || !Fetchable(s, ptr) then []
    else [Next(s, ptr)] + Taken(Perform(s, Next(s, ptr), stales[0]), ptr + REQUEST_BYTES, stales[1..])
  }

  /** Requests of the table before the first one outside the caller's memory. */
  function Reachable(u: UserMem, ptr: nat, n: nat): (k: nat)
    ensures k <= n
    decreases n
  {
    if n == 0 || !Readable(u, ptr, REQUEST_BYTES) then 0 else 1 + Reachable(u, ptr + REQUEST_BYTES, n - 1)
  }
}
