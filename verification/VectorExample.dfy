/**
 A vector call whose first request reads into its second one, so that the request carried out is not the one that stood
 in the table when the call began.
 */
module VectorExample {
  import opened RegisterWords
  import opened TransferSpec
  import opened TransferMeaning
  import opened TransferCalls
  import opened TransferRoundTrip
  import opened VectorSpec
  import opened VectorLaws

  lemma {:induction false} FieldZero(b: seq<bv8>)
    requires forall i :: 0 <= i < |b| ==> b[i] == 0
    ensures Field(b) == 0
  {
    if b != [] {
      FieldZero(b[1..]);
    }
  }

  lemma FieldLow(b: seq<bv8>)
    requires b != [] && forall i :: 1 <= i < |b| ==> b[i] == 0
    ensures Field(b) == b[0] as nat
  {
    FieldZero(b[1..]);
  }

  /** A device with one byte of BAR 0, which holds 5. */
  function OneByte(): (d: Dev)
    ensures DevOk(d) && ScratchInRange(d)
  {
    Dev(seq(NUMBER_OF_BARS, i => if i == 0 then Bar(true, 0, 1, [5]) else Bar(false, 0, 0, [])), false, RW_D8, 0, 0)
  }

  /**
   A table of two requests at address 1. The first reads one 8-bit register at offset 0 of BAR 0 to address 35,
   the mode field of the second; the second is all zeros.
   */
  function TwoRequests(): UserMem {
    map i: nat | 1 <= i < 65 :: TableByte(i)
  }

  function TableByte(i: nat): bv8 {
    if i == 13 then 1 else if i == 17 then 35 else 0
  }

  function FirstRequest(): Request {
    Request(0, 0, 0, 0, 1, 35, 0)
  }

  lemma FirstDecoded(b: seq<bv8>)
    requires |b| == REQUEST_BYTES
    requires forall i :: 0 <= i < |b| ==> b[i] == if i == 12 then 1 else if i == 16 then 35 else 0
    ensures Decode(b) == FirstRequest()
  {
    hide Field;
    FieldZero(b[0..2]);
    FieldZero(b[2..4]);
    FieldZero(b[4..8]);
    FieldZero(b[8..12]);
    FieldLow(b[12..16]);
    FieldLow(b[16..24]);
    FieldZero(b[24..32]);
  }

  lemma SecondDecoded(b: seq<bv8>, mode: bv8)
    requires |b| == REQUEST_BYTES && forall i :: 0 <= i < |b| ==> b[i] == if i == 2 then mode else 0
    ensures Decode(b).mode == mode as nat && Decode(b).bar == 0
  {
    hide Field;
    FieldLow(b[2..4]);
    FieldZero(b[4..8]);
  }

  /** The first request puts the register into the mode field of the second. */
  lemma FirstReads(stale: Stale)
    ensures var s := Session(OneByte(), TwoRequests(), 0);
      var u := Perform(s, FirstRequest(), stale).user;
      u.Keys == TwoRequests().Keys && forall i :: i in u ==> u[i] == if i == 35 then 5 else TwoRequests()[i]
  {
    var d, u := OneByte(), TwoRequests();
    assert !LinkDown(d, stale.scratch) by {
      assert Patch(stale.scratch, [5])[0] == 5 && AllOnes(1)[0] == 0xFF;
      assert d.bars[0].bytes[0..1] == [5];
    }
    assert Count(d, RW_D8, 0, 0, 1) == 1;
    assert Span(1, 0) == 0 && Span(1, 1) == 1;
    ReadShows(d, RW_D8, 0, 0, u, 35, 1, stale);
    var r := ReadInline(d, RW_D8, 0, 0, u, 35, 1, stale);
    hide ReadInline, LinkDown;
    assert HoldsAt(d.bars[0].bytes, 0, false, 1, r.user, 35, 0);
    assert Fetch(r.user, 35, 1)[0] == r.user[35];
    assert Reg(d.bars[0].bytes, 0, 1)[0] == 5;
  }

  /** The second request is carried out as a write, although it stood in the table as a read. */
  lemma OverwrittenRequest(first: Stale, second: Stale)
    ensures var s := Session(OneByte(), TwoRequests(), 0);
      var stales := [first, second];
      && Ready(s) && BarsOk(s, 1, stales)
      && |Table(s.user, 1, 2)| == 2 && Table(s.user, 1, 2)[1].mode == 0
      && |Taken(s, 1, stales)| == 2 && Taken(s, 1, stales)[1].mode == MTCA_SIMPLE_WRITE
      && Taken(s, 1, stales) != Table(s.user, 1, 2)
  {
    hide Perform, Decode, OneByte;
    var s := Session(OneByte(), TwoRequests(), 0);
    var stales := [first, second];
    FirstDecoded(Fetch(s.user, 1, REQUEST_BYTES));
    SecondDecoded(Fetch(s.user, 33, REQUEST_BYTES), 0);
    FirstReads(first);
    var s' := Perform(s, FirstRequest(), first);
    SecondDecoded(Fetch(s'.user, 33, REQUEST_BYTES), 5);
    TwoTaken(s, 1, stales);
    TwoInTable(s.user, 1);
  }

  lemma TwoTaken(s: Session, ptr: nat, stales: seq<Stale>)
    requires |stales| == 2 && Ready(s) && Fetchable(s, ptr) && Next(s, ptr).bar < NUMBER_OF_BARS
    requires var s' := Perform(s, Next(s, ptr), stales[0]);
      Fetchable(s', ptr + REQUEST_BYTES) && Next(s', ptr + REQUEST_BYTES).bar < NUMBER_OF_BARS
    ensures BarsOk(s, ptr, stales)
    ensures Taken(s, ptr, stales) == [Next(s, ptr), Next(Perform(s, Next(s, ptr), stales[0]), ptr + REQUEST_BYTES)]
  {
    hide Perform, Next, Fetchable, Ready;
    var s' := Perform(s, Next(s, ptr), stales[0]);
    var rest := stales[1..];
    assert rest[1..] == [];
    assert BarsOk(s', ptr + REQUEST_BYTES, rest);
    assert Taken(s', ptr + REQUEST_BYTES, rest) == [Next(s', ptr + REQUEST_BYTES)];
  }

  lemma TwoInTable(u: UserMem, ptr: nat)
    requires Readable(u, ptr, REQUEST_BYTES) && Readable(u, ptr + REQUEST_BYTES, REQUEST_BYTES)
    ensures Table(u, ptr, 2) == [Decode(Fetch(u, ptr, REQUEST_BYTES)), Decode(Fetch(u, ptr + REQUEST_BYTES, REQUEST_BYTES))]
  {
    hide Decode, Fetch, Readable;
  }
}
