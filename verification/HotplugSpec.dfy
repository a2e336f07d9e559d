/**
 The slot table of the driver, its open files and the shared table of physical addresses, and what open, release,
 probe and remove make of them. Slot PCIEDEV_NR_DEVS is the null device: bound for ever, never active, and
 the place where files go when their board disappears.
 */
module HotplugSpec {
  import opened RegisterWords

  const PCIEDEV_NR_DEVS: nat := 15
  const NUMBER_OF_SLOTS: nat := 15
  const BARS: nat := 6

  const ENODEV: int := 19
  const EFAULT: int := 14

  /** One open file structure; closing a file retires its identity. */
  type FileId = nat

  datatype Range = Range(start: nat, end: nat, flag: nat)

  const NO_RANGE := Range(0, 0, 0)

  /** mem_base, mem_base_end, mem_base_flag, and whether memmory_base is set. */
  datatype BarInfo = BarInfo(range: Range, mapped: bool)

  const NO_BAR := BarInfo(NO_RANGE, false)

  /** The access settings of a device: swap, register_size and the scratch location. */
  datatype Settings = Settings(swap: bool, size: RegSize, scratchBar: nat, scratchOffset: nat)

  /** `pciedev_dev`: binded, dev_sts, dev_file_ref, dev_file_list, slot_num, the BAR arrays and the access settings. */
  datatype Slot = Slot(bound: bool, active: bool, ref: int, files: seq<FileId>, physSlot: nat, bars: seq<BarInfo>, settings: Settings)

  /** `upciedev_phys_address` */
  datatype Entry = Entry(sts: bool, slotNum: nat, bus: nat, device: nat, bars: seq<Range>)

  /** The slots, private_data of every open file, pciedevModuleNum and dev_phys_addresses. */
  datatype Driver = Driver(slots: seq<Slot>, target: map<FileId, nat>, modules: int, table: seq<Entry>)

  /** What a probed board and the kernel calls for it answer. */
  datatype Board = Board(enable: int, regions: int, physSlot: nat, bus: nat, device: nat, res: seq<Range>, iomap: seq<bool>)

  predicate BoardOk(b: Board) {
    |b.res| == BARS && |b.iomap| == BARS && b.physSlot < NUMBER_OF_SLOTS
  }

  predicate Shaped(d: Driver) {
    && |d.slots| == PCIEDEV_NR_DEVS + 1 && |d.table| == NUMBER_OF_SLOTS
    && (forall k :: 0 <= k < |d.slots| ==> |d.slots[k].bars| == BARS)
    && (forall p :: 0 <= p < |d.table| ==> |d.table[p].bars| == BARS)
    && (forall f :: f in d.target ==> d.target[f] < |d.slots|)
  }

  function NoRanges(): (r: seq<Range>)
    ensures |r| == BARS
  {
    seq(BARS, _ => NO_RANGE)
  }

  function EmptyEntry(): Entry {
    Entry(false, 0, 0, 0, NoRanges())
  }

  function FreshSlot(k: nat): Slot {
    Slot(k == PCIEDEV_NR_DEVS, false, 0, [], 0, seq(BARS, _ => NO_BAR), Settings(false, RW_D8, 0, 0))
  }

  /** `upciedev_init_module_exp` on the zeroed address table. */
  function Initial(): (d: Driver)
    ensures Shaped(d)
  {
    Driver(seq(PCIEDEV_NR_DEVS + 1, k requires 0 <= k => FreshSlot(k)), map[], 0, seq(NUMBER_OF_SLOTS, _ => EmptyEntry()))
  }

  function SetSlot(d: Driver, k: nat, s: Slot): Driver
    requires k < |d.slots|
  {
    d.(slots := d.slots[k := s])
  }

  // ----- files -----

  /** `pciedev_open_exp` */
  function Open(d: Driver, f: FileId, k: nat): Driver
    requires Shaped(d) && k < |d.slots|
  {
    var s := d.slots[k];
    SetSlot(d, k, s.(ref := s.ref + 1, files := [f] + s.files)).(target := d.target[f := k])
  }

  function Without(files: seq<FileId>, f: FileId): (r: seq<FileId>)
    ensures forall g :: g in r <==> g in files && g != f
    ensures |r| <= |files|
  {
    if files == [] then []
    else if files[0] == f then Without(files[1..], f)
    else [files[0]] + Without(files[1..], f)
  }

  /** The locked part of `pciedev_release_exp`; k is the device that was read from the file before the lock was taken. */
  function Release(d: Driver, f: FileId, k: nat): Driver
    requires Shaped(d) && k < |d.slots|
  {
    var s := d.slots[k];
    SetSlot(d, k, s.(ref := s.ref - 1, files := Without(s.files, f))).(target := d.target - {f})
  }

  // ----- probe -----

  /** The first slot from k on that is not bound, or the number of slots. */
  function FirstFree(slots: seq<Slot>, k: nat): (r: nat)
    requires k <= |slots|
    ensures k <= r <= |slots|
    ensures forall i :: k <= i < r ==> slots[i].bound
    ensures r < |slots| ==> !slots[r].bound
    decreases |slots| - k
  {
    if k == |slots| || !slots[k].bound then k else FirstFree(slots, k + 1)
  }

  function ProbedBars(b: Board): (r: seq<BarInfo>)
    requires BoardOk(b)
    ensures |r| == BARS
  {
    seq(BARS, i requires 0 <= i < BARS => BarInfo(b.res[i], b.res[i].start != 0 && b.iomap[i]))
  }

  /** Only ranges with a start address reach the table. */
  function ProbedRanges(prev: seq<Range>, b: Board): (r: seq<Range>)
    requires BoardOk(b) && |prev| == BARS
    ensures |r| == BARS
  {
    seq(BARS, i requires 0 <= i < BARS => if b.res[i].start != 0 then b.res[i] else prev[i])
  }

  function ProbedEntry(prev: Entry, b: Board): Entry
    requires BoardOk(b) && |prev.bars| == BARS
  {
    Entry(true, b.physSlot, b.bus, b.device, ProbedRanges(prev.bars, b))
  }

  /** The settings of a freshly probed board. */
  const PROBED := Settings(false, RW_D32, 0, 0)

  /** The kernel accepts the board. */
  predicate Succeeds(b: Board) {
    b.enable == 0 && b.regions == 0
  }

  /** `pciedev_probe_exp` when slot k is the first free one; the result is what it returns. */
  function Probe(d: Driver, k: nat, b: Board): (r: (Driver, int))
    requires Shaped(d) && k < PCIEDEV_NR_DEVS && BoardOk(b)
  {
    var s := d.slots[k];
    if b.enable != 0 then (SetSlot(d, k, s.(bound := true)), b.enable)
    else if b.regions != 0 then (SetSlot(d, k, s.(bound := false)), b.regions)
    else
      (Driver(d.slots[k := Slot(true, true, s.ref, s.files, b.physSlot, ProbedBars(b), PROBED)], d.target, d.modules + 1,
              d.table[b.physSlot := ProbedEntry(d.table[b.physSlot], b)]), 0)
  }

  // ----- remove -----

  function ClearedBars(bars: seq<BarInfo>): (r: seq<BarInfo>)
    ensures |r| == |bars|
  {
    seq(|bars|, i requires 0 <= i < |bars| => if bars[i].mapped then NO_BAR else bars[i])
  }

  /** Everything remove does before it turns to the files. */
  function Unplugged(d: Driver, k: nat): Driver
    requires Shaped(d) && k < |d.slots| && d.slots[k].physSlot < NUMBER_OF_SLOTS
  {
    var s := d.slots[k];
    Driver(d.slots[k := s.(bound := false, active := false, bars := ClearedBars(s.bars))], d.target, d.modules - 1,
           d.table[s.physSlot := EmptyEntry()])
  }

  /** The first file in the list of slot k moves to the null device. */
  function MoveOne(d: Driver, k: nat): Driver
    requires Shaped(d) && k < PCIEDEV_NR_DEVS && d.slots[k].files != []
  {
    var s, n := d.slots[k], d.slots[PCIEDEV_NR_DEVS];
    Driver(d.slots[k := s.(files := s.files[1..])][PCIEDEV_NR_DEVS := n.(ref := n.ref + 1)],
           d.target[s.files[0] := PCIEDEV_NR_DEVS], d.modules, d.table)
  }

  function MoveAll(d: Driver, k: nat): (r: Driver)
    requires Shaped(d) && k < PCIEDEV_NR_DEVS
    ensures Shaped(r)
    decreases |d.slots[k].files|
  {
    if d.slots[k].files == [] then d else MoveAll(MoveOne(d, k), k)
  }

  /** `pciedev_remove_exp` for the board in slot k. */
  function Remove(d: Driver, k: nat): (r: Driver)
    requires Shaped(d) && k < PCIEDEV_NR_DEVS && d.slots[k].physSlot < NUMBER_OF_SLOTS
    ensures Shaped(r)
  {
    MoveAll(Unplugged(d, k), k)
  }

  // ----- access -----

  datatype Call = ReadCall | WriteCall | IoctlCall

  /** The first test of read, write and ioctl: 0 when the call goes on to the hardware. */
  function Gate(d: Driver, f: FileId, call: Call): int
    requires Shaped(d) && f in d.target
  {
    if d.slots[d.target[f]].active then 0
    else if call.ReadCall? then -ENODEV
    else -EFAULT
  }
}
