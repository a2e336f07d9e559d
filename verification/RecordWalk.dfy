/**
 The firmware record walk: DESY projects and PICMG Standard Hardware API modules form linked chains in BAR
 memory, and the driver turns such a chain into a list of records. Both walks have the same shape, so the model
 is stated once over the record format.
 */
module RecordWalk {
  import opened RegisterWords
  import opened TransferSpec

  datatype Format = Project | Module

  const PROJ_MAGIC: bv32 := 0x50524F4A
  const MODULE_MAGIC: bv32 := 0x534D
  const INT_MAX: nat := 0x7FFF_FFFF

  /** ioread32; addresses outside the BAR are excluded where it is used. */
  function Load(m: seq<bv8>, a: nat): bv32 {
    if a + 4 <= |m| then FromBytes(m[a..a + 4]) else 0
  }

  function RecordBytes(fmt: Format): nat {
    if fmt.Project? then 0x1C else 0x38
  }

  predicate Matches(fmt: Format, m: seq<bv8>, a: nat) {
    match fmt
    case Project => Load(m, a) == PROJ_MAGIC
    case Module => Load(m, a) >> 16 == MODULE_MAGIC
  }

  /** Where the words kept from a record stand, in the order of the record structures. */
  function Offsets(fmt: Format): seq<nat> {
    match fmt
    case Project => [0x04, 0x08, 0x0C, 0x10]
    case Module => [0x08, 0x0C, 0x10, 0x14, 0x18, 0x1C, 0x20, 0x28, 0x2C, 0x30, 0x34]
  }

  function NextOffset(fmt: Format): nat {
    if fmt.Project? then 0x18 else 0x04
  }

  /** `pciedev_prj_info` or `shapi_module_info`. Projects carry no number, version, interrupt id or name of their own. */
  datatype Record = Record(num: nat, version: bv32, irqId: bv32, words: seq<bv32>, name: seq<bv8>, next: bv32)

  /** Character i of a name word, most significant byte first. */
  function Character(w: bv32, i: nat): bv8
    requires i < 4
  {
    ToBytes(w)[3 - i]
  }

  /** A blank or zero ends the characters taken from a word. */
  predicate EndsName(c: bv8) {
    c == 0x20 || c == 0
  }

  function NamePart(w: bv32): (r: seq<bv8>)
    ensures |r| == 4
  {
    seq(4, i requires 0 <= i < 4 =>
      if exists j :: 0 <= j <= i && EndsName(Character(w, j)) then 0 else Character(w, i))
  }

  /** `module_name`: each word gives its leading characters, and the array ends in a zero. */
  function ModuleName(w0: bv32, w1: bv32): (r: seq<bv8>)
    ensures |r| == 9
  {
    NamePart(w0) + NamePart(w1) + [0]
  }

  function Low16(x: bv32): bv32 {
    x & 0xFFFF
  }

  function RecordAt(fmt: Format, m: seq<bv8>, a: nat, num: nat): Record {
    Record(if fmt.Module? then num else 0,
           if fmt.Module? then Low16(Load(m, a)) else 0,
           if fmt.Module? then Load(m, a + 0x24) else 0,
           seq(|Offsets(fmt)|, i requires 0 <= i < |Offsets(fmt)| => Load(m, a + Offsets(fmt)[i])),
           if fmt.Module? then ModuleName(Load(m, a + 0x10), Load(m, a + 0x14)) else [],
           Load(m, a + NextOffset(fmt)))
  }

  /** Where a visit to offset a sends the walk; 0 ends it. */
  function Hop(fmt: Format, m: seq<bv8>, a: nat): nat {
    if Matches(fmt, m, a) then Load(m, a + NextOffset(fmt)) as nat else 0
  }

  // ----- the chain -----

  /** The k-th offset of the chain that starts at a; 0 once it has ended. */
  function At(fmt: Format, m: seq<bv8>, a: nat, k: nat): nat {
    if k == 0 then a
    else
      var prev := At(fmt, m, a, k - 1);
      if prev == 0 then 0 else Hop(fmt, m, prev)
  }

  /** The k-th offset holds a record of the chain. */
  predicate On(fmt: Format, m: seq<bv8>, a: nat, k: nat) {
    At(fmt, m, a, k) != 0 && Matches(fmt, m, At(fmt, m, a, k))
  }

  /** The chain is n records long: then comes offset 0 or a wrong magic number. */
  ghost predicate StopsAt(fmt: Format, m: seq<bv8>, a: nat, n: nat) {
    (forall i: nat :: i < n ==> On(fmt, m, a, i)) && !On(fmt, m, a, n)
  }

  predicate Visitable(fmt: Format, m: seq<bv8>, a: nat) {
    a <= INT_MAX && a + 4 <= |m| && (Matches(fmt, m, a) ==> a + RecordBytes(fmt) <= |m|)
  }

  /** Every offset the walk visits lies in the BAR and fits a C int. */
  ghost predicate InBar(fmt: Format, m: seq<bv8>, a: nat) {
    forall k: nat :: At(fmt, m, a, k) == 0 || Visitable(fmt, m, At(fmt, m, a, k))
  }

  /** The records of the chain, in chain order, numbered from 1. */
  function Records(fmt: Format, m: seq<bv8>, a: nat, n: nat): (r: seq<Record>)
    ensures |r| == n
  {
    seq(n, i requires 0 <= i < n => RecordAt(fmt, m, At(fmt, m, a, i), i + 1))
  }

  function Backwards(r: seq<Record>): (b: seq<Record>)
    ensures |b| == |r| && forall i :: 0 <= i < |r| ==> b[i] == r[|r| - 1 - i]
  {
    seq(|r|, i requires 0 <= i < |r| => r[|r| - 1 - i])
  }

  /** The interrupts of both masks. */
  function Join(x: bv32, y: bv32): bv32 {
    x | y
  }

  /** All interrupt ids of a list of records, in one mask. */
  function IrqMask(r: seq<Record>): bv32 {
    if r == [] then 0 else Join(IrqMask(r[..|r| - 1]), r[|r| - 1].irqId)
  }

  // ----- when a walk ends -----

  lemma {:induction false} SamePlaceSameRest(fmt: Format, m: seq<bv8>, a: nat, i: nat, j: nat, t: nat)
    requires At(fmt, m, a, i) == At(fmt, m, a, j)
    ensures At(fmt, m, a, i + t) == At(fmt, m, a, j + t)
  {
    hide Hop;
    if t > 0 {
      SamePlaceSameRest(fmt, m, a, i, j, t - 1);
    }
  }

  /** A chain that ends visits pairwise distinct offsets. */
  lemma {:induction false} EndsDistinct(fmt: Format, m: seq<bv8>, a: nat, n: nat, i: nat, j: nat)
    requires StopsAt(fmt, m, a, n) && i < j < n
    ensures At(fmt, m, a, i) != At(fmt, m, a, j)
  {
    hide At, Matches;
    assert On(fmt, m, a, i + (n - j));
    if At(fmt, m, a, i) == At(fmt, m, a, j) {
      SamePlaceSameRest(fmt, m, a, i, j, n - j);
    }
  }

  predicate DistinctBelow(s: seq<nat>, bound: nat) {
    && (forall i :: 0 <= i < |s| ==> s[i] < bound)
    && (forall i, j :: 0 <= i < j < |s| ==> s[i] != s[j])
  }

  /** A list of distinct numbers below a bound is no longer than the bound. */
  lemma {:induction false} Pigeonhole(s: seq<nat>, bound: nat)
    requires DistinctBelow(s, bound)
    ensures |s| <= bound
    decreases bound
  {
    if |s| > 0 {
      assert s[0] < bound;
      if i :| 0 <= i < |s| && s[i] == bound - 1 {
        var rest := s[..i] + s[i + 1..];
        assert forall k :: 0 <= k < |rest| ==> rest[k] == if k < i then s[k] else s[k + 1];
        Pigeonhole(rest, bound - 1);
      } else {
        Pigeonhole(s, bound - 1);
      }
    }
  }

  ghost predicate NoRepeat(fmt: Format, m: seq<bv8>, a: nat) {
    forall i: nat, j: nat :: i < j && On(fmt, m, a, i) && On(fmt, m, a, j) ==> At(fmt, m, a, i) != At(fmt, m, a, j)
  }

  /** The least n up to a limit at which the chain is no longer on a record, if there is one. */
  lemma {:induction false} FindStop(fmt: Format, m: seq<bv8>, a: nat, limit: nat) returns (n: nat)
    ensures n <= limit && (forall i: nat :: i < n ==> On(fmt, m, a, i))
    ensures n < limit ==> StopsAt(fmt, m, a, n)
  {
    if limit == 0 {
      n := 0;
    } else {
      n := FindStop(fmt, m, a, limit - 1);
      if n == limit - 1 && On(fmt, m, a, n) {
        n := n + 1;
      }
    }
  }

  lemma {:induction false} OffAfterEnd(fmt: Format, m: seq<bv8>, a: nat, n: nat, k: nat)
    requires !On(fmt, m, a, n) && n <= k
    ensures !On(fmt, m, a, k) && (n < k ==> At(fmt, m, a, k) == 0)
    decreases k
  {
    if n < k {
      OffAfterEnd(fmt, m, a, n, k - 1);
    }
  }

  lemma EndsNoRepeat(fmt: Format, m: seq<bv8>, a: nat, n: nat)
    requires StopsAt(fmt, m, a, n)
    ensures NoRepeat(fmt, m, a)
  {
    hide On, At;
    forall i: nat, j: nat | i < j && On(fmt, m, a, i) && On(fmt, m, a, j)
      ensures At(fmt, m, a, i) != At(fmt, m, a, j)
    {
      if j >= n {
        OffAfterEnd(fmt, m, a, n, j);
      } else {
        EndsDistinct(fmt, m, a, n, i, j);
      }
    }
  }

  lemma NoRepeatEnds(fmt: Format, m: seq<bv8>, a: nat) returns (n: nat)
    requires InBar(fmt, m, a) && NoRepeat(fmt, m, a)
    ensures n <= |m| && StopsAt(fmt, m, a, n)
  {
    n := FindStop(fmt, m, a, |m| + 1);
    if n == |m| + 1 {
      var s := seq(n, i requires 0 <= i < n => At(fmt, m, a, i));
      forall i: nat | i < n ensures At(fmt, m, a, i) < |m| {
        assert On(fmt, m, a, i);
      }
      assert DistinctBelow(s, |m|);
      Pigeonhole(s, |m|);
    }
  }

  /** A walk inside the BAR ends if and only if it visits no record twice; it then takes at most |m| records. */
  lemma WalkEndsIff(fmt: Format, m: seq<bv8>, a: nat)
    requires InBar(fmt, m, a)
    ensures (exists n: nat :: StopsAt(fmt, m, a, n)) <==> NoRepeat(fmt, m, a)
    ensures forall n: nat :: StopsAt(fmt, m, a, n) ==> n <= |m|
  {
    hide StopsAt, NoRepeat, InBar;
    if n: nat :| StopsAt(fmt, m, a, n) {
      EndsNoRepeat(fmt, m, a, n);
    }
    if NoRepeat(fmt, m, a) {
      var n0 := NoRepeatEnds(fmt, m, a);
      forall n: nat | StopsAt(fmt, m, a, n) ensures n <= |m| {
        StopUnique(fmt, m, a, n, n0);
      }
    } else {
      forall n: nat | StopsAt(fmt, m, a, n) ensures false {
        EndsNoRepeat(fmt, m, a, n);
      }
    }
  }

  lemma StopUnique(fmt: Format, m: seq<bv8>, a: nat, n: nat, n': nat)
    requires StopsAt(fmt, m, a, n) && StopsAt(fmt, m, a, n')
    ensures n == n'
  {
  }

  // ----- the walk over BAR 0 -----

  lemma OrAssoc(x: bv32, y: bv32, z: bv32)
    ensures Join(Join(x, y), z) == Join(x, Join(y, z))
  {
  }

  lemma RecordsGrow(fmt: Format, m: seq<bv8>, a: nat, c: nat)
    ensures var r := RecordAt(fmt, m, At(fmt, m, a, c), c + 1);
      && Backwards(Records(fmt, m, a, c + 1)) == [r] + Backwards(Records(fmt, m, a, c))
      && IrqMask(Records(fmt, m, a, c + 1)) == Join(IrqMask(Records(fmt, m, a, c)), r.irqId)
  {
    hide RecordAt, At;
    assert Records(fmt, m, a, c + 1)[..c] == Records(fmt, m, a, c);
  }

  lemma Prepended(r: Record, b: seq<Record>, rest: seq<Record>)
    ensures [r] + (b + rest) == ([r] + b) + rest
  {
  }

  lemma WalkStart(fmt: Format, m: seq<bv8>, a: nat, irq: bv32)
    ensures At(fmt, m, a, 0) == a && Records(fmt, m, a, 0) == [] && Backwards([]) == []
    ensures Join(irq, IrqMask(Records(fmt, m, a, 0))) == irq
  {
  }

  /** One visit: a record leads to the next offset, anything else ends the chain. */
  lemma WalkRound(fmt: Format, m: seq<bv8>, a: nat, n: nat, c: nat)
    requires StopsAt(fmt, m, a, n) && c <= n && At(fmt, m, a, c) != 0
    ensures if Matches(fmt, m, At(fmt, m, a, c)) then c < n && Hop(fmt, m, At(fmt, m, a, c)) == At(fmt, m, a, c + 1)
      else c == n && Hop(fmt, m, At(fmt, m, a, c)) == 0
    ensures c < n && At(fmt, m, a, c + 1) == 0 ==> c + 1 == n
  {
    hide Matches, Load;
    assert c < n ==> On(fmt, m, a, c);
    assert c + 1 < n ==> On(fmt, m, a, c + 1);
  }

  lemma JoinZero(x: bv32)
    ensures Join(x, 0) == x
  {
  }

  /** A project record, word by word. */
  lemma ProjectAt(m: seq<bv8>, a: nat, num: nat)
    ensures RecordAt(Project, m, a, num) ==
      Record(0, 0, 0, [Load(m, a + 0x04), Load(m, a + 0x08), Load(m, a + 0x0C), Load(m, a + 0x10)], [], Load(m, a + 0x18))
  {
    hide Load, ModuleName, Low16;
  }

  /** A module record, word by word. */
  lemma ModuleAt(m: seq<bv8>, a: nat, num: nat)
    ensures RecordAt(Module, m, a, num) ==
      Record(num, Low16(Load(m, a)), Load(m, a + 0x24),
             [Load(m, a + 0x08), Load(m, a + 0x0C), Load(m, a + 0x10), Load(m, a + 0x14), Load(m, a + 0x18), Load(m, a + 0x1C),
              Load(m, a + 0x20), Load(m, a + 0x28), Load(m, a + 0x2C), Load(m, a + 0x30), Load(m, a + 0x34)],
             ModuleName(Load(m, a + 0x10), Load(m, a + 0x14)), Load(m, a + 0x04))
  {
    hide Load, ModuleName, Low16;
  }

  // ----- what the list holds, said of the BAR bytes -----

  /** A loaded word has the byte at the lowest address in its lowest bits. */
  lemma LoadBytes(m: seq<bv8>, a: nat)
    requires a + 4 <= |m|
    ensures var x := Load(m, a);
      && (x & 0xFF) as bv8 == m[a] && ((x >> 8) & 0xFF) as bv8 == m[a + 1]
      && ((x >> 16) & 0xFF) as bv8 == m[a + 2] && ((x >> 24) & 0xFF) as bv8 == m[a + 3]
    ensures ToBytes(Low16(Load(m, a))) == [m[a], m[a + 1], 0, 0]
  {
    LowBytes(Load(m, a));
    WordRoundTrip(m[a..a + 4]);
    hide FromBytes;
    assert ToBytes(Load(m, a)) == m[a..a + 4];
    assert m[a..a + 4][0] == m[a] && m[a..a + 4][1] == m[a + 1] && m[a..a + 4][2] == m[a + 2] && m[a..a + 4][3] == m[a + 3];
  }

  lemma LowBytes(x: bv32)
    ensures ToBytes(Low16(x)) == [Byte0(x), Byte1(x), 0, 0]
  {
  }

  /** Projects start with the bytes of "JORP", modules with any two bytes and "MS". */
  lemma MagicBytes(m: seq<bv8>, a: nat)
    requires a + 4 <= |m|
    ensures Matches(Project, m, a) <==> m[a..a + 4] == [0x4A, 0x4F, 0x52, 0x50]
    ensures Matches(Module, m, a) <==> m[a + 2] == 0x4D && m[a + 3] == 0x53
  {
    var b := m[a..a + 4];
    assert b == [m[a], m[a + 1], m[a + 2], m[a + 3]];
    ProjectMagic(b);
    ModuleMagic(b);
    hide FromBytes;
  }

  lemma ProjectMagic(b: Word)
    ensures FromBytes(b) == PROJ_MAGIC <==> b[0] == 0x4A && b[1] == 0x4F && b[2] == 0x52 && b[3] == 0x50
  {
  }

  lemma ModuleMagic(b: Word)
    ensures FromBytes(b) >> 16 == MODULE_MAGIC <==> b[2] == 0x4D && b[3] == 0x53
  {
  }

  /** Character i of a name is bits 31 - 8i to 24 - 8i of its word. */
  lemma CharacterBits(w: bv32)
    ensures Character(w, 0) == ((w >> 24) & 0xFF) as bv8 && Character(w, 1) == ((w >> 16) & 0xFF) as bv8
    ensures Character(w, 2) == ((w >> 8) & 0xFF) as bv8 && Character(w, 3) == (w & 0xFF) as bv8
  {
  }

  /** Place i of a name word holds its character i, or zero from the first blank or zero on. */
  lemma NamePartIs(w: bv32, i: nat)
    requires i < 4
    ensures var c := [((w >> 24) & 0xFF) as bv8, ((w >> 16) & 0xFF) as bv8, ((w >> 8) & 0xFF) as bv8, (w & 0xFF) as bv8];
      NamePart(w)[i] == if exists j :: 0 <= j <= i && (c[j] == 0x20 || c[j] == 0) then 0 else c[i]
  {
    CharacterBits(w);
    hide Character;
    var c := [((w >> 24) & 0xFF) as bv8, ((w >> 16) & 0xFF) as bv8, ((w >> 8) & 0xFF) as bv8, (w & 0xFF) as bv8];
    assert forall j :: 0 <= j < 4 ==> c[j] == Character(w, j);
  }

  /** A module with the given number as it stands at offset a; the words of the C structure. */
  ghost predicate IsModule(r: Record, m: seq<bv8>, a: nat, num: nat) {
    && r.num == num && r.version == Low16(Load(m, a)) && r.next == Load(m, a + 0x04) && r.irqId == Load(m, a + 0x24)
    && r.words == [Load(m, a + 0x08), Load(m, a + 0x0C), Load(m, a + 0x10), Load(m, a + 0x14), Load(m, a + 0x18), Load(m, a + 0x1C),
                   Load(m, a + 0x20), Load(m, a + 0x28), Load(m, a + 0x2C), Load(m, a + 0x30), Load(m, a + 0x34)]
    && r.name == NamePart(Load(m, a + 0x10)) + NamePart(Load(m, a + 0x14)) + [0]
  }

  ghost predicate IsProject(r: Record, m: seq<bv8>, a: nat) {
    && r.num == 0 && r.irqId == 0 && r.next == Load(m, a + 0x18)
    && r.words == [Load(m, a + 0x04), Load(m, a + 0x08), Load(m, a + 0x0C), Load(m, a + 0x10)]
  }

  lemma RecordAtIs(fmt: Format, m: seq<bv8>, a: nat, num: nat)
    ensures fmt.Module? ==> IsModule(RecordAt(fmt, m, a, num), m, a, num)
    ensures fmt.Project? ==> IsProject(RecordAt(fmt, m, a, num), m, a)
  {
    hide RecordAt, NamePart, Load, Low16;
    if fmt.Project? {
      ProjectAt(m, a, num);
    } else {
      ModuleAt(m, a, num);
    }
  }

  /**
   The list after a walk over a chain of n records: entry i is the record at offset n - 1 - i of the chain, and for modules
   carries the number n - i. Each offset of the chain is the next word of the record before it.
   */
  lemma ChainList(fmt: Format, m: seq<bv8>, a: nat, n: nat, i: nat)
    requires StopsAt(fmt, m, a, n) && i < n
    ensures var l := Backwards(Records(fmt, m, a, n)); var at := At(fmt, m, a, n - 1 - i);
      && |l| == n
      && (fmt.Module? ==> IsModule(l[i], m, at, n - i))
      && (fmt.Project? ==> IsProject(l[i], m, at))
      && At(fmt, m, a, n - i) == l[i].next as nat
    ensures At(fmt, m, a, 0) == a
  {
    hide RecordAt, Load, Hop, At, Matches, IsModule, IsProject, Records, Backwards, On;
    var k := n - 1 - i;
    AtSteps(fmt, m, a, k);
    ListAt(fmt, m, a, n, i);
    RecordAtIs(fmt, m, At(fmt, m, a, k), k + 1);
    NextIs(fmt, m, At(fmt, m, a, k), k + 1);
  }

  /** Entry i of the list is the record at offset n - 1 - i of the chain; modules carry the number n - i. */
  ghost predicate ListedAt(fmt: Format, m: seq<bv8>, a: nat, n: nat, list: seq<Record>, i: nat) {
    && i < n && i < |list|
    && var at := At(fmt, m, a, n - 1 - i);
       if fmt.Module? then IsModule(list[i], m, at, n - i) else IsProject(list[i], m, at)
  }

  lemma Listed(fmt: Format, m: seq<bv8>, a: nat, n: nat, rest: seq<Record>, i: nat)
    requires StopsAt(fmt, m, a, n) && i < n
    ensures ListedAt(fmt, m, a, n, Backwards(Records(fmt, m, a, n)) + rest, i)
  {
    hide IsModule, IsProject, StopsAt, At, Records, Backwards;
    ChainList(fmt, m, a, n, i);
  }

  lemma AtSteps(fmt: Format, m: seq<bv8>, a: nat, k: nat)
    requires On(fmt, m, a, k)
    ensures Matches(fmt, m, At(fmt, m, a, k)) && At(fmt, m, a, k + 1) == Hop(fmt, m, At(fmt, m, a, k)) && At(fmt, m, a, 0) == a
  {
    hide Matches, Hop;
  }

  lemma ListAt(fmt: Format, m: seq<bv8>, a: nat, n: nat, i: nat)
    requires i < n
    ensures var l := Backwards(Records(fmt, m, a, n));
      |l| == n && l[i] == RecordAt(fmt, m, At(fmt, m, a, n - 1 - i), n - i)
  {
    hide RecordAt, At;
  }

  lemma HopEnds(fmt: Format, m: seq<bv8>, a: nat)
    requires !Matches(fmt, m, a)
    ensures Hop(fmt, m, a) == 0
  {
    hide Matches;
  }

  lemma NextIs(fmt: Format, m: seq<bv8>, a: nat, num: nat)
    requires Matches(fmt, m, a)
    ensures Hop(fmt, m, a) == RecordAt(fmt, m, a, num).next as nat
  {
    hide Load, ModuleName, Low16;
  }

  lemma JoinBits(x: bv32, y: bv32, b: bv32)
    ensures Join(x, y) & b != 0 <==> x & b != 0 || y & b != 0
  {
    hide Join;
    Distributes(x, y, b);
    OrZero(x & b, y & b);
  }

  lemma Distributes(x: bv32, y: bv32, b: bv32)
    ensures Join(x, y) & b == Join(x & b, y & b)
  {
  }

  lemma OrZero(x: bv32, y: bv32)
    ensures Join(x, y) == 0 <==> x == 0 && y == 0
  {
  }

  lemma {:induction false} MaskBits(r: seq<Record>, b: bv32)
    ensures HasBit(IrqMask(r), b) <==> exists i :: 0 <= i < |r| && HasBit(r[i].irqId, b)
  {
    hide Join, HasBit;
    if r == [] {
      NoBit(b);
    } else {
      var k := |r| - 1;
      MaskBits(r[..k], b);
      BitOfJoin(IrqMask(r[..k]), r[k].irqId, b);
      if i :| 0 <= i < |r[..k]| && HasBit(r[..k][i].irqId, b) {
        assert HasBit(r[i].irqId, b);
      }
      if i :| 0 <= i < |r| && HasBit(r[i].irqId, b) {
        if i < k {
          assert HasBit(r[..k][i].irqId, b);
        }
      }
    }
  }

  /** Some bit of b is set in x. */
  predicate HasBit(x: bv32, b: bv32) {
    x & b != 0
  }

  lemma NoBit(b: bv32)
    ensures !HasBit(0, b)
  {
  }

  lemma BitOfJoin(x: bv32, y: bv32, b: bv32)
    ensures HasBit(Join(x, y), b) <==> HasBit(x, b) || HasBit(y, b)
  {
    JoinBits(x, y, b);
  }

  /** A bit of the mask after a module walk was set before or is set in the word at +0x24 of some record of the chain. */
  lemma ChainIrq(m: seq<bv8>, a: nat, n: nat, irq: bv32, b: bv32)
    ensures HasBit(Join(irq, IrqMask(Records(Module, m, a, n))), b) <==>
      HasBit(irq, b) || exists i: nat :: i < n && HasBit(Load(m, At(Module, m, a, i) + 0x24), b)
  {
    hide Join, HasBit, IrqMask, At, Load, Records;
    var r := Records(Module, m, a, n);
    BitOfJoin(irq, IrqMask(r), b);
    MaskBits(r, b);
    if i :| 0 <= i < |r| && HasBit(r[i].irqId, b) {
      RecordIrq(m, a, n, i);
    }
    if i: nat :| i < n && HasBit(Load(m, At(Module, m, a, i) + 0x24), b) {
      RecordIrq(m, a, n, i);
      assert HasBit(r[i].irqId, b);
    }
    RecordsLength(m, a, n);
  }

  lemma RecordsLength(m: seq<bv8>, a: nat, n: nat)
    ensures |Records(Module, m, a, n)| == n
  {
  }

  lemma RecordIrq(m: seq<bv8>, a: nat, n: nat, i: nat)
    ensures |Records(Module, m, a, n)| == n
    ensures i < n ==> Records(Module, m, a, n)[i].irqId == Load(m, At(Module, m, a, i) + 0x24)
  {
    hide Load, At, ModuleName;
  }

  /** A project walk leaves the mask alone. */
  lemma {:induction false} ProjectIrq(m: seq<bv8>, a: nat, n: nat)
    ensures IrqMask(Records(Project, m, a, n)) == 0
  {
    if n > 0 {
      ProjectIrq(m, a, n - 1);
      RecordsGrow(Project, m, a, n - 1);
      ProjectAt(m, At(Project, m, a, n - 1), n);
      JoinZero(0);
    }
  }

  /** The characters of one name word, stored into four places of a zeroed array from k on. */
  method StoreName(w: bv32, name: seq<bv8>, k: nat) returns (r: seq<bv8>)
    requires k + 4 <= |name| && forall i :: k <= i < |name| ==> name[i] == 0
    ensures |r| == |name| && r[..k] == name[..k] && r[k..k + 4] == NamePart(w) && forall i :: k + 4 <= i < |r| ==> r[i] == 0
  {
    hide ToBytes;
    r := name;
    var i := 0;
    while i < 4
      invariant 0 <= i <= 4 && |r| == |name| && r[..k] == name[..k]
      invariant forall j :: 0 <= j < i ==> !EndsName(Character(w, j)) && r[k + j] == Character(w, j)
      invariant forall j :: k + i <= j < |r| ==> r[j] == 0
    {
      var c := Character(w, i);
      if EndsName(c) {
        r := r[k + i := 0];
        break;
      }
      r := r[k + i := c];
      i := i + 1;
    }
    forall j | 0 <= j < 4 ensures r[k + j] == NamePart(w)[j] {
      if j >= i {
        assert EndsName(Character(w, i));
      }
    }
  }

  /** The fields of the device structure that a walk reads and fills: where it starts, the list, the record count and device_irq_num. */
  class DeviceInfo {
    var projNext: nat     // brd_info_list.PCIEDEV_PROJ_NEXT
    var firstModule: nat  // device_info_list.SHAPI_FIRST_MODULE_ADDRESS
    var list: seq<Record>
    var count: nat
    var irq: bv32

    /** `pciedev_fill_prj_info` and `pciedev_fill_shapi_module__info`; a project also clears where the next walk would start. */
    method Fill(fmt: Format, m: seq<bv8>, a: nat) returns (next: int)
      requires a + 4 <= |m| && (Matches(fmt, m, a) ==> a + RecordBytes(fmt) <= |m|)
      modifies this`list, this`count, this`irq, this`projNext
      ensures next == Hop(fmt, m, a)
      ensures if Matches(fmt, m, a) then
          && count == old(count) + 1 && list == [RecordAt(fmt, m, a, count)] + old(list)
          && irq == Join(old(irq), RecordAt(fmt, m, a, count).irqId)
          && projNext == (if fmt.Project? then 0 else old(projNext))
        else count == old(count) && list == old(list) && irq == old(irq) && projNext == old(projNext)
      ensures Matches(fmt, m, a) ==> if fmt.Module? then IsModule(list[0], m, a, count) else IsProject(list[0], m, a)
    {
      hide ModuleName, Load, Join, IsModule, IsProject, Matches, RecordAt, Hop;
      next := 0;
      if Matches(fmt, m, a) {
        NextIs(fmt, m, a, count + 1);
        count := count + 1;
        RecordAtIs(fmt, m, a, count);
        var r;
        if fmt.Project? {
          r := ReadProject(m, a);
          projNext := 0;
          ProjectAt(m, a, count);
          JoinZero(irq);
        } else {
          r := ReadModule(m, a, count);
          irq := Merged(irq, r.irqId);
        }
        list := [r] + list;
        next := r.next as int;
      } else {
        HopEnds(fmt, m, a);
      }
    }

    /** The words of a project, in the order the driver reads them. */
    method ReadProject(m: seq<bv8>, a: nat) returns (r: Record)
      ensures forall num: nat :: r == RecordAt(Project, m, a, num)
    {
      hide Load, RecordAt;
      forall num: nat ensures RecordAt(Project, m, a, num) == RecordAt(Project, m, a, 0) {
        ProjectAt(m, a, num);
        ProjectAt(m, a, 0);
      }
      ProjectAt(m, a, 0);
      var id := Load(m, a + 0x04);
      var version := Load(m, a + 0x08);
      var date := Load(m, a + 0x0C);
      var reserved := Load(m, a + 0x10);
      var w := Load(m, a + 0x18);
      r := Record(0, 0, 0, [id, version, date, reserved], [], w);
    }

    /** The words of a module, in the order the driver reads them. */
    method ReadModule(m: seq<bv8>, a: nat, num: nat) returns (r: Record)
      ensures r == RecordAt(Module, m, a, num)
    {
      hide Load, RecordAt, Low16, ModuleName;
      ModuleAt(m, a, num);
      var shapi := Low16(Load(m, a));
      var ids := Load(m, a + 0x08);
      var version := Load(m, a + 0x0C);
      var cap := Load(m, a + 0x18);
      var status := Load(m, a + 0x1C);
      var control := Load(m, a + 0x20);
      var irqId := Load(m, a + 0x24);
      var clear := Load(m, a + 0x28);
      var mask := Load(m, a + 0x2C);
      var flag := Load(m, a + 0x30);
      var active := Load(m, a + 0x34);
      var name0 := Load(m, a + 0x10);
      var name1 := Load(m, a + 0x14);
      var name := ReadName(m, a);
      var w := Load(m, a + 0x04);
      r := Record(num, shapi, irqId, [ids, version, name0, name1, cap, status, control, clear, mask, flag, active], name, w);
    }

    /** `device_irq_num | SHAPI_IRQ_ID` */
    method Merged(x: bv32, y: bv32) returns (r: bv32)
      ensures r == Join(x, y)
    {
      r := x | y;
    }

    /** The name loop of a module record. */
    method ReadName(m: seq<bv8>, a: nat) returns (name: seq<bv8>)
      ensures name == ModuleName(Load(m, a + 0x10), Load(m, a + 0x14))
    {
      hide Load, NamePart;
      name := [0, 0, 0, 0, 0, 0, 0, 0, 0];
      name := StoreName(Load(m, a + 0x10), name, 0);
      name := StoreName(Load(m, a + 0x14), name, 4);
      assert name == name[..4] + name[4..8] + [name[8]];
    }

    /** The walk of `pciedev_get_prjinfo` and `pciedev_get_shapi_module_info` along the chain in BAR 0. */
    method WalkChain(fmt: Format, m: seq<bv8>, first: nat, ghost n: nat) returns (total: nat)
      requires first != 0 && InBar(fmt, m, first) && StopsAt(fmt, m, first, n)
      modifies this`list, this`count, this`irq, this`projNext
      ensures total == count == n
      ensures projNext == if fmt.Project? && n > 0 then 0 else old(projNext)
      ensures list == Backwards(Records(fmt, m, first, n)) + old(list)
      ensures irq == Join(old(irq), IrqMask(Records(fmt, m, first, n)))
      ensures forall i: nat :: i < n ==> ListedAt(fmt, m, first, n, list, i)
    {
      hide ListedAt, Matches, RecordAt, Hop, At, StopsAt, On, Records, Backwards, IrqMask, Join;
      count := 0;
      var next: int := first;
      WalkStart(fmt, m, first, irq);
      while next != 0
        invariant count <= n
        invariant next != 0 ==> next == At(fmt, m, first, count)
        invariant next == 0 ==> count == n
        invariant list == Backwards(Records(fmt, m, first, count)) + old(list)
        invariant irq == Join(old(irq), IrqMask(Records(fmt, m, first, count)))
        invariant projNext == if fmt.Project? && count > 0 then 0 else old(projNext)
        decreases n - count, if next == 0 then 0 else 1
      {
        ghost var c, mask := count, IrqMask(Records(fmt, m, first, count));
        ghost var r := RecordAt(fmt, m, At(fmt, m, first, c), c + 1);
        assert Visitable(fmt, m, At(fmt, m, first, c));
        WalkRound(fmt, m, first, n, c);
        RecordsGrow(fmt, m, first, c);
        OrAssoc(old(irq), mask, r.irqId);
        next := Fill(fmt, m, next);
        Prepended(r, Backwards(Records(fmt, m, first, c)), old(list));
      }
      total := count;
      forall i: nat | i < n ensures ListedAt(fmt, m, first, n, list, i) {
        Listed(fmt, m, first, n, old(list), i);
      }
    }

    /** The rounds on one BAR whose record at offset 0, if any, has no next offset: there is one. */
    method VisitBar(fmt: Format, m: seq<bv8>)
      requires Visitable(fmt, m, 0) && Hop(fmt, m, 0) == 0
      modifies this`list, this`count, this`irq, this`projNext
      ensures if Matches(fmt, m, 0) then
          && count == old(count) + 1 && list == [RecordAt(fmt, m, 0, count)] + old(list)
          && irq == Join(old(irq), RecordAt(fmt, m, 0, count).irqId)
          && projNext == (if fmt.Project? then 0 else old(projNext))
        else count == old(count) && list == old(list) && irq == old(irq) && projNext == old(projNext)
    {
      hide RecordAt, Join, Load;
      var next: int, restart := 1, 0;
      while next != 0
        invariant next == 0 || next == 1
        invariant next == 1 ==> count == old(count) && list == old(list) && irq == old(irq) && projNext == old(projNext)
        invariant next == 0 ==> if Matches(fmt, m, 0) then
            && count == old(count) + 1 && list == [RecordAt(fmt, m, 0, count)] + old(list)
            && irq == Join(old(irq), RecordAt(fmt, m, 0, count).irqId)
            && projNext == (if fmt.Project? then 0 else old(projNext))
          else count == old(count) && list == old(list) && irq == old(irq) && projNext == old(projNext)
        decreases next
      {
        next := restart;
        next := Fill(fmt, m, next);
      }
    }

    /** Where a walk starts: 0 stands for the walk over the other BARs. */
    ghost function First(fmt: Format): nat
      reads this
    {
      if fmt.Project? then projNext else firstModule
    }

    /**
     `pciedev_get_prjinfo` and `pciedev_get_shapi_module_info`. A project walk that finds a record leaves no start behind,
     so the next one takes the other path.
     */
    method GetInfo(fmt: Format, bars: seq<Bar>, ghost n: nat) returns (total: nat)
      requires |bars| == NUMBER_OF_BARS
      requires First(fmt) != 0 ==> InBar(fmt, bars[0].bytes, First(fmt)) && StopsAt(fmt, bars[0].bytes, First(fmt), n)
      requires First(fmt) == 0 ==> forall i :: 1 <= i < NUMBER_OF_BARS && bars[i].mapped ==>
        Visitable(fmt, bars[i].bytes, 0) && Hop(fmt, bars[i].bytes, 0) == 0
      modifies this`list, this`count, this`irq, this`projNext
      ensures var r := if old(First(fmt)) != 0 then Records(fmt, bars[0].bytes, old(First(fmt)), n) else Heads(fmt, bars, NUMBER_OF_BARS);
        && total == count == |r| && list == Backwards(r) + old(list) && irq == Join(old(irq), IrqMask(r))
        && (fmt.Project? && r != [] ==> First(fmt) == 0)
    {
      hide InBar, StopsAt, Visitable, Hop, Backwards, IrqMask, Heads, Join;
      var first := if fmt.Project? then projNext else firstModule;
      if first != 0 {
        total := WalkChain(fmt, bars[0].bytes, first, n);
      } else {
        total := WalkBars(fmt, bars);
      }
    }

    /** The walk over BARs 1 to 5, which starts again at offset 0 in each round. */
    method WalkBars(fmt: Format, bars: seq<Bar>) returns (total: nat)
      requires |bars| == NUMBER_OF_BARS
      requires forall i :: 1 <= i < NUMBER_OF_BARS && bars[i].mapped ==>
        Visitable(fmt, bars[i].bytes, 0) && Hop(fmt, bars[i].bytes, 0) == 0
      modifies this`list, this`count, this`irq, this`projNext
      ensures total == count == |Heads(fmt, bars, NUMBER_OF_BARS)|
      ensures projNext == if fmt.Project? && count > 0 then 0 else old(projNext)
      ensures list == Backwards(Heads(fmt, bars, NUMBER_OF_BARS)) + old(list)
      ensures irq == Join(old(irq), IrqMask(Heads(fmt, bars, NUMBER_OF_BARS)))
    {
      hide Matches, RecordAt, Hop, Backwards, IrqMask, Heads, Join;
      count := 0;
      var i := 1;
      HeadsStart(fmt, bars, irq);
      while i < NUMBER_OF_BARS
        invariant 1 <= i <= NUMBER_OF_BARS
        invariant count == |Heads(fmt, bars, i)|
        invariant list == Backwards(Heads(fmt, bars, i)) + old(list)
        invariant irq == Join(old(irq), IrqMask(Heads(fmt, bars, i)))
        invariant projNext == if fmt.Project? && count > 0 then 0 else old(projNext)
      {
        ghost var h := Heads(fmt, bars, i);
        ghost var r := RecordAt(fmt, bars[i].bytes, 0, |h| + 1);
        HeadsGrow(fmt, bars, i);
        OrAssoc(old(irq), IrqMask(h), r.irqId);
        Prepended(r, Backwards(h), old(list));
        if bars[i].mapped {
          VisitBar(fmt, bars[i].bytes);
        }
        i := i + 1;
      }
      total := count;
    }
  }

  // ----- the walk over BARs 1 to 5 -----

  /** 28 bytes of a BAR with a project at offset 0 whose next offset is 1. */
  function LoopingBar(): seq<bv8> {
    [0x4A, 0x4F, 0x52, 0x50] + seq(20, _ => 0) + [1, 0, 0, 0]
  }

  /** On this BAR the rounds never end: after k of them the same project is in the list k times. */
  lemma LoopingBarNeverEnds(k: nat)
    ensures Visitable(Project, LoopingBar(), 0) && After(Project, LoopingBar(), k).added == k && After(Project, LoopingBar(), k).next != 0
  {
    var m := LoopingBar();
    assert m[0..4] == [0x4A, 0x4F, 0x52, 0x50];
    assert FromBytes([0x4A, 0x4F, 0x52, 0x50]) == PROJ_MAGIC;
    assert m[0x18..0x1C] == [1, 0, 0, 0];
    assert FromBytes([1, 0, 0, 0]) == 1;
    hide FromBytes;
    RestartAdds(Project, m, k);
  }

  /** The records at offset 0 of the mapped BARs 1 to i - 1, numbered from 1. */
  function Heads(fmt: Format, bars: seq<Bar>, i: nat): seq<Record>
    requires i <= |bars|
  {
    if i <= 1 then []
    else
      var h := Heads(fmt, bars, i - 1);
      if bars[i - 1].mapped && Matches(fmt, bars[i - 1].bytes, 0)
      then h + [RecordAt(fmt, bars[i - 1].bytes, 0, |h| + 1)]
      else h
  }

  lemma HeadsStart(fmt: Format, bars: seq<Bar>, irq: bv32)
    requires |bars| == NUMBER_OF_BARS
    ensures Heads(fmt, bars, 1) == [] && Backwards([]) == [] && Join(irq, IrqMask([])) == irq
  {
  }

  lemma HeadsGrow(fmt: Format, bars: seq<Bar>, i: nat)
    requires 1 <= i < |bars|
    ensures var h := Heads(fmt, bars, i);
      var r := RecordAt(fmt, bars[i].bytes, 0, |h| + 1);
      var h' := Heads(fmt, bars, i + 1);
      if bars[i].mapped && Matches(fmt, bars[i].bytes, 0)
      then |h'| == |h| + 1 && Backwards(h') == [r] + Backwards(h) && IrqMask(h') == Join(IrqMask(h), r.irqId)
      else h' == h
  {
    hide Matches, RecordAt;
    var h := Heads(fmt, bars, i);
    var r := RecordAt(fmt, bars[i].bytes, 0, |h| + 1);
    assert (h + [r])[..|h|] == h;
  }

  /** BAR b has a record at offset 0 that the walk takes. */
  predicate HasHead(fmt: Format, bars: seq<Bar>, b: nat)
    requires b < |bars|
  {
    1 <= b && bars[b].mapped && Matches(fmt, bars[b].bytes, 0)
  }

  /** The records of the walk are those of BARs below i with a head, one each, and modules are numbered in that order. */
  lemma {:induction false} HeadsAre(fmt: Format, bars: seq<Bar>, i: nat, b: nat)
    requires b < i <= |bars| && HasHead(fmt, bars, b)
    ensures var h, k := Heads(fmt, bars, i), |Heads(fmt, bars, b)|;
      && k < |h|
      && (fmt.Module? ==> IsModule(h[k], bars[b].bytes, 0, k + 1))
      && (fmt.Project? ==> IsProject(h[k], bars[b].bytes, 0))
  {
    hide RecordAt, Matches, IsModule, IsProject;
    if i == b + 1 {
      RecordAtIs(fmt, bars[b].bytes, 0, |Heads(fmt, bars, b)| + 1);
    } else {
      HeadsAre(fmt, bars, i - 1, b);
    }
  }

  /** The BARs below i with a record at offset 0. */
  ghost function BarsWithHead(fmt: Format, bars: seq<Bar>, i: nat): set<nat>
    requires i <= |bars|
  {
    set b: nat | b < i && HasHead(fmt, bars, b)
  }

  lemma NoHeadBars(fmt: Format, bars: seq<Bar>, i: nat)
    requires i <= |bars| && i <= 1
    ensures BarsWithHead(fmt, bars, i) == {}
  {
  }

  lemma HeadBars(fmt: Format, bars: seq<Bar>, i: nat)
    requires 0 < i <= |bars|
    ensures |BarsWithHead(fmt, bars, i)| == |BarsWithHead(fmt, bars, i - 1)| + if HasHead(fmt, bars, i - 1) then 1 else 0
  {
    hide HasHead;
    var before, now := BarsWithHead(fmt, bars, i - 1), BarsWithHead(fmt, bars, i);
    assert now == if HasHead(fmt, bars, i - 1) then before + {i - 1} else before;
  }

  lemma {:induction false} HeadsCounted(fmt: Format, bars: seq<Bar>, i: nat)
    requires i <= |bars|
    ensures |Heads(fmt, bars, i)| == |BarsWithHead(fmt, bars, i)|
  {
    hide RecordAt, Matches, BarsWithHead;
    if i <= 1 {
      NoHeadBars(fmt, bars, i);
    } else {
      HeadsCounted(fmt, bars, i - 1);
      HeadBars(fmt, bars, i);
    }
  }

  /** Records added and the offset returned by the last visit, after k rounds on one BAR. */
  datatype Rounds = Rounds(added: nat, next: nat)

  function After(fmt: Format, m: seq<bv8>, k: nat): Rounds {
    if k == 0 then Rounds(0, 1)
    else
      var r := After(fmt, m, k - 1);
      if r.next == 0 then r else Rounds(r.added + if Matches(fmt, m, 0) then 1 else 0, Hop(fmt, m, 0))
  }

  lemma {:induction false} RestartAdds(fmt: Format, m: seq<bv8>, k: nat)
    requires Hop(fmt, m, 0) != 0
    ensures After(fmt, m, k).added == k && After(fmt, m, k).next != 0
  {
    if k > 0 {
      RestartAdds(fmt, m, k - 1);
    }
  }

  /**
   The rounds on one of BARs 1 to 5 end if and only if offset 0 holds no record with a next offset; otherwise
   every round adds the same record again.
   */
  lemma RestartEndsIff(fmt: Format, m: seq<bv8>)
    ensures (exists k: nat :: After(fmt, m, k).next == 0) <==> Hop(fmt, m, 0) == 0
    ensures Hop(fmt, m, 0) != 0 ==> forall k: nat :: After(fmt, m, k).added == k
  {
    hide Hop, Matches;
    if Hop(fmt, m, 0) == 0 {
      assert After(fmt, m, 1).next == 0;
    } else {
      forall k: nat ensures After(fmt, m, k).next != 0 && After(fmt, m, k).added == k {
        RestartAdds(fmt, m, k);
      }
    }
  }
}
