/**
 Runs of the driver. Open, remove and probe are one step each. A release reads the device of its file before it takes the
 lock of that device, and read, write and ioctl test the status before they take it; so release and call are two steps
 each, and anything may happen in between. Any number of files, calls and releases are under way at a time.
 */
module HotplugRuns {
  import opened HotplugSpec

  /** One read, write or ioctl system call. */
  type CallId = nat

  /** A call past its status test: its file, the slot it holds on to, and the board it tested. */
  datatype InFlight = InFlight(file: FileId, slot: nat, board: nat)

  /**
   The driver, the releases and calls under way, and history: files ever opened, files ever moved away from each slot,
   releases of each slot that a remove overtook, the board each slot holds (boards are numbered as they are
   probed), and the boards whose status each file has tested with success.
   */
  datatype World = World(drv: Driver, releasing: map<FileId, nat>, calls: map<CallId, InFlight>,
                         used: set<FileId>, moved: seq<nat>, overtaken: seq<nat>,
                         board: seq<nat>, boards: nat, tested: map<FileId, set<nat>>)

  datatype Label =
    | OpenFile(file: FileId, slot: nat)
    | BeginRelease(file: FileId)                          // dev = filp->private_data
    | EndRelease(file: FileId)                            // the section under the lock of that dev
    | ProbeBoard(slot: nat, info: Board)
    | RemoveBoard(slot: nat)
    | TestStatus(call: CallId, file: FileId, kind: Call)  // dev = filp->private_data, and the test of dev_sts
    | EnterDevice(call: CallId, bar: nat)                 // the access under the lock of that dev

  predicate WorldShaped(w: World) {
    && Shaped(w.drv) && |w.moved| == |w.drv.slots| && |w.overtaken| == |w.drv.slots| && |w.board| == |w.drv.slots|
    && (forall f :: f in w.releasing ==> w.releasing[f] < |w.drv.slots|)
    && (forall c :: c in w.calls ==> w.calls[c].slot < |w.drv.slots|)
  }

  function Zeros(): (z: seq<nat>)
    ensures |z| == PCIEDEV_NR_DEVS + 1
  {
    seq(PCIEDEV_NR_DEVS + 1, _ => 0)
  }

  function Start(): World {
    World(Initial(), map[], map[], {}, Zeros(), Zeros(), Zeros(), 0, map[])
  }

  /** A physical slot number no active board has. */
  predicate PhysFree(d: Driver, p: nat) {
    forall k :: 0 <= k < |d.slots| && d.slots[k].active ==> d.slots[k].physSlot != p
  }

  /** What the environment may do: probes find a free slot and a physical slot of their own, removes name an active board. */
  predicate Allowed(w: World, l: Label) {
    WorldShaped(w) &&
    match l
    case OpenFile(f, k) => f !in w.used && k <= PCIEDEV_NR_DEVS
    case BeginRelease(f) => f in w.drv.target && f !in w.releasing
    case EndRelease(f) => f in w.releasing && f in w.drv.target
    case ProbeBoard(k, b) =>
      k == FirstFree(w.drv.slots, 0) && k < PCIEDEV_NR_DEVS && BoardOk(b) && PhysFree(w.drv, b.physSlot)
    case RemoveBoard(k) => k < PCIEDEV_NR_DEVS && w.drv.slots[k].active && w.drv.slots[k].physSlot < NUMBER_OF_SLOTS
    case TestStatus(c, f, _) => c !in w.calls && f in w.drv.target && f !in w.releasing
    case EnterDevice(c, bar) => c in w.calls && bar < BARS
  }

  function Tested(w: World, f: FileId): set<nat> {
    if f in w.tested then w.tested[f] else {}
  }

  function AfterTest(w: World, c: CallId, f: FileId): World
    requires WorldShaped(w) && f in w.drv.target
  {
    var k := w.drv.target[f];
    if w.drv.slots[k].active then
      w.(tested := w.tested[f := Tested(w, f) + {w.board[k]}], calls := w.calls[c := InFlight(f, k, w.board[k])])
    else w
  }

  /** Where a call under the lock ends up: at the board its slot holds now, or with -EFAULT when the BAR is not mapped. */
  datatype Outcome = Hit(board: nat) | Refused

  function Reach(w: World, c: CallId, bar: nat): Outcome
    requires WorldShaped(w) && c in w.calls && bar < BARS
  {
    var k := w.calls[c].slot;
    if w.drv.slots[k].bars[bar].mapped then Hit(w.board[k]) else Refused
  }

  /** The file of a release moved to the null device after the release had read its slot. */
  predicate Overtaken(w: World, f: FileId) {
    f in w.releasing && f in w.drv.target && w.drv.target[f] != w.releasing[f]
  }

  function Released(w: World, f: FileId): World
    requires WorldShaped(w) && f in w.releasing
  {
    var k := w.releasing[f];
    w.(drv := Release(w.drv, f, k), releasing := w.releasing - {f},
       overtaken := if Overtaken(w, f) then w.overtaken[k := w.overtaken[k] + 1] else w.overtaken)
  }

  function Probed(w: World, k: nat, b: Board): World
    requires WorldShaped(w) && k < PCIEDEV_NR_DEVS && BoardOk(b)
  {
    var (d, ret) := Probe(w.drv, k, b);
    if ret == 0 then w.(drv := d, board := w.board[k := w.boards], boards := w.boards + 1) else w.(drv := d)
  }

  function Removed(w: World, k: nat): World
    requires WorldShaped(w) && k < PCIEDEV_NR_DEVS && w.drv.slots[k].physSlot < NUMBER_OF_SLOTS
  {
    w.(drv := Remove(w.drv, k), moved := w.moved[k := w.moved[k] + |w.drv.slots[k].files|])
  }

  ghost predicate Step(w: World, l: Label, w': World) {
    Allowed(w, l) &&
    match l
    case OpenFile(f, k) => w' == w.(drv := Open(w.drv, f, k), used := w.used + {f})
    case BeginRelease(f) => w' == w.(releasing := w.releasing[f := w.drv.target[f]])
    case EndRelease(f) => w' == Released(w, f)
    case ProbeBoard(k, b) => w' == Probed(w, k, b)
    case RemoveBoard(k) => w' == Removed(w, k)
    case TestStatus(c, f, _) => w' == AfterTest(w, c, f)
    case EnterDevice(c, _) => w' == w.(calls := w.calls - {c})
  }

  // ----- the invariants -----

  /** Slot k lists exactly the files that point to it, each once; the null device may miss the migrated ones. */
  ghost predicate ListOk(d: Driver, k: nat)
    requires Shaped(d) && k < |d.slots|
  {
    && (forall i, j :: 0 <= i < j < |d.slots[k].files| ==> d.slots[k].files[i] != d.slots[k].files[j])
    && (forall f :: f in d.slots[k].files ==> f in d.target && d.target[f] == k)
    && (k < PCIEDEV_NR_DEVS ==> forall f :: f in d.target && d.target[f] == k ==> f in d.slots[k].files)
  }

  /** The open files that point to slot k. */
  function Pointing(target: map<FileId, nat>, k: nat): set<FileId> {
    set f | f in target && target[f] == k
  }

  function Total(s: seq<nat>): nat {
    if s == [] then 0 else s[0] + Total(s[1..])
  }

  /** A release holds on to the slot its file points to, or to the one a remove moved the file away from. */
  ghost predicate ReleaseOk(d: Driver, f: FileId, k: nat)
    requires Shaped(d)
  {
    && k <= PCIEDEV_NR_DEVS && f in d.target
    && (d.target[f] == k || d.target[f] == PCIEDEV_NR_DEVS)
    && (k < PCIEDEV_NR_DEVS ==> f !in d.slots[PCIEDEV_NR_DEVS].files)
  }

  ghost predicate CountersOk(w: World)
    requires WorldShaped(w)
  {
    && (forall k: nat :: k < PCIEDEV_NR_DEVS ==>
          w.drv.slots[k].ref == |w.drv.slots[k].files| + w.moved[k] - w.overtaken[k])
    && w.drv.slots[PCIEDEV_NR_DEVS].ref == |Pointing(w.drv.target, PCIEDEV_NR_DEVS)| + Total(w.overtaken)
  }

  ghost predicate FilesOk(w: World) {
    && WorldShaped(w)
    && (forall k: nat :: k <= PCIEDEV_NR_DEVS ==> ListOk(w.drv, k))
    && CountersOk(w)
    && (forall f :: f in w.drv.target ==> f in w.used)
    && (forall f :: f in w.releasing ==> ReleaseOk(w.drv, f, w.releasing[f]))
  }

  function CountActive(slots: seq<Slot>): nat {
    if slots == [] then 0 else (if slots[0].active then 1 else 0) + CountActive(slots[1..])
  }

  predicate Unmapped(s: Slot) {
    forall i :: 0 <= i < |s.bars| ==> !s.bars[i].mapped
  }

  /**
   The null device is bound and inactive, active slots are bound, inactive slots map no BAR, and the module count is
   the number of active slots.
   */
  ghost predicate SlotsOk(d: Driver) {
    && Shaped(d)
    && d.slots[PCIEDEV_NR_DEVS].bound && !d.slots[PCIEDEV_NR_DEVS].active
    && (forall k :: 0 <= k < |d.slots| ==> if d.slots[k].active then d.slots[k].bound else Unmapped(d.slots[k]))
    && d.modules == CountActive(d.slots)
  }

  /** What the address table shows of a board: its ranges with a start address. */
  predicate Shows(e: Entry, s: Slot) {
    && e.sts && e.slotNum == s.physSlot && |e.bars| == |s.bars| == BARS
    && forall i :: 0 <= i < BARS ==> e.bars[i] == if s.bars[i].range.start != 0 then s.bars[i].range else NO_RANGE
  }

  /** The shared table shows every active board at its physical slot and is empty elsewhere. */
  ghost predicate TableOk(d: Driver) {
    && Shaped(d)
    && (forall k :: 0 <= k < |d.slots| && d.slots[k].active ==>
          d.slots[k].physSlot < NUMBER_OF_SLOTS && Shows(d.table[d.slots[k].physSlot], d.slots[k]))
    && (forall k, m :: 0 <= k < m < |d.slots| && d.slots[k].active && d.slots[m].active ==>
          d.slots[k].physSlot != d.slots[m].physSlot)
    && (forall p: nat :: p < NUMBER_OF_SLOTS && PhysFree(d, p) ==> d.table[p] == EmptyEntry())
  }

  /** A file has tested no board, or only the one its slot still holds, or it points to the null device or is closed. */
  ghost predicate HandleOk(w: World, f: FileId) {
    WorldShaped(w) &&
    var r := Tested(w, f);
    && |r| <= 1
    && (forall g :: g in r ==> g < w.boards)
    && (f !in w.used ==> r == {})
    && (f in w.drv.target && r != {} ==>
          var k := w.drv.target[f];
          k == PCIEDEV_NR_DEVS || (w.drv.slots[k].active && r == {w.board[k]}))
  }

  ghost predicate BoardsOk(w: World) {
    WorldShaped(w) &&
    (forall k :: 0 <= k < |w.drv.slots| && w.drv.slots[k].active ==> w.board[k] < w.boards) &&
    (forall f: FileId :: HandleOk(w, f))
  }

  ghost predicate Inv(w: World) {
    WorldShaped(w) && FilesOk(w) && SlotsOk(w.drv) && TableOk(w.drv) && BoardsOk(w)
  }
}
