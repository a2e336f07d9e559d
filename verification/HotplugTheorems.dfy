/**
 What holds in every state of every run of the driver.
 */
module HotplugTheorems {
  import opened HotplugSpec
  import opened HotplugRuns
  import opened HotplugSteps

  // ----- boards reached by a file -----

  lemma {:induction false} MoveAllTargets(d: Driver, k: nat)
    requires Shaped(d) && k < PCIEDEV_NR_DEVS && ListOk(d, k)
    ensures var t := MoveAll(d, k).target;
      && t.Keys == d.target.Keys
      && forall f :: f in d.target ==> t[f] == if d.target[f] == k then PCIEDEV_NR_DEVS else d.target[f]
    decreases |d.slots[k].files|
  {
    if d.slots[k].files != [] {
      ListMoved(d, k, k);
      var f := d.slots[k].files[0];
      assert f in d.slots[k].files;
      MoveAllTargets(MoveOne(d, k), k);
    }
  }

  /** Files keep their slot, move to the null device, or are closed; boards and activity change only at slot k. */
  lemma HandleRemoved(w: World, k: nat, f: FileId)
    requires FilesOk(w) && HandleOk(w, f) && k < PCIEDEV_NR_DEVS && w.drv.slots[k].physSlot < NUMBER_OF_SLOTS
    ensures WorldShaped(Removed(w, k)) && HandleOk(Removed(w, k), f)
  {
    assert ListOk(w.drv, k);
    var d1 := Unplugged(w.drv, k);
    assert ListOk(d1, k);
    hide ListOk, MoveAll, ClearedBars, EmptyEntry, FilesOk;
    MoveAllTargets(d1, k);
    MoveAllStatus(d1, k);
  }

  lemma BoardsRemove(w: World, k: nat)
    requires FilesOk(w) && BoardsOk(w) && k < PCIEDEV_NR_DEVS && w.drv.slots[k].physSlot < NUMBER_OF_SLOTS
    ensures BoardsOk(Removed(w, k))
  {
    hide HandleOk, FilesOk, MoveAll, ClearedBars, EmptyEntry;
    UnplugFiles(w.drv, k);
    MoveAllStatus(Unplugged(w.drv, k), k);
    forall f: FileId ensures WorldShaped(Removed(w, k)) && HandleOk(Removed(w, k), f) {
      HandleRemoved(w, k, f);
    }
  }

  lemma BoardsProbe(w: World, k: nat, b: Board)
    requires BoardsOk(w) && k < PCIEDEV_NR_DEVS && BoardOk(b) && !w.drv.slots[k].active
    ensures WorldShaped(Probed(w, k, b)) && BoardsOk(Probed(w, k, b))
  {
    hide ProbedBars, ProbedEntry;
    ProbeFiles(w.drv, k, b);
    forall f: FileId ensures HandleOk(Probed(w, k, b), f) {
      assert HandleOk(w, f);
    }
  }

  lemma BoardsOpen(w: World, f: FileId, k: nat)
    requires BoardsOk(w) && f !in w.used && k <= PCIEDEV_NR_DEVS
    ensures BoardsOk(w.(drv := Open(w.drv, f, k), used := w.used + {f}))
  {
    var w' := w.(drv := Open(w.drv, f, k), used := w.used + {f});
    forall g: FileId ensures HandleOk(w', g) {
      assert HandleOk(w, g);
    }
  }

  lemma BoardsBegin(w: World, f: FileId)
    requires BoardsOk(w) && f in w.drv.target
    ensures BoardsOk(w.(releasing := w.releasing[f := w.drv.target[f]]))
  {
    var w' := w.(releasing := w.releasing[f := w.drv.target[f]]);
    forall g: FileId ensures HandleOk(w', g) {
      assert HandleOk(w, g);
    }
  }

  lemma BoardsRelease(w: World, f: FileId)
    requires BoardsOk(w) && f in w.releasing
    ensures BoardsOk(Released(w, f))
  {
    hide Without;
    var w' := Released(w, f);
    forall g: FileId ensures HandleOk(w', g) {
      assert HandleOk(w, g);
    }
  }

  lemma BoardsEnter(w: World, c: CallId)
    requires BoardsOk(w)
    ensures BoardsOk(w.(calls := w.calls - {c}))
  {
    var w' := w.(calls := w.calls - {c});
    forall g: FileId ensures HandleOk(w', g) {
      assert HandleOk(w, g);
    }
  }

  lemma BoardsTest(w: World, c: CallId, f: FileId)
    requires BoardsOk(w) && SlotsOk(w.drv) && f in w.drv.target && f in w.used
    ensures BoardsOk(AfterTest(w, c, f))
  {
    hide CountActive, Unmapped;
    var w' := AfterTest(w, c, f);
    assert HandleOk(w, f);
    var k := w.drv.target[f];
    if w.drv.slots[k].active {
      assert Tested(w, f) + {w.board[k]} == {w.board[k]};
    }
    forall g: FileId ensures HandleOk(w', g) {
      assert HandleOk(w, g);
    }
  }

  // ----- every step keeps the invariant -----

  lemma {:induction false} CountNone(slots: seq<Slot>)
    requires forall k :: 0 <= k < |slots| ==> !slots[k].active
    ensures CountActive(slots) == 0
    decreases |slots|
  {
    if slots != [] {
      CountNone(slots[1..]);
    }
  }

  lemma {:induction false} TotalZero(s: seq<nat>)
    requires forall i :: 0 <= i < |s| ==> s[i] == 0
    ensures Total(s) == 0
  {
    if s != [] {
      TotalZero(s[1..]);
    }
  }

  lemma InvStart()
    ensures Inv(Start())
  {
    hide CountActive, Total;
    CountNone(Initial().slots);
    TotalZero(Zeros());
    assert Pointing(map[], PCIEDEV_NR_DEVS) == {};
  }

  lemma InvOpen(w: World, f: FileId, k: nat)
    requires Inv(w) && f !in w.used && k <= PCIEDEV_NR_DEVS
    ensures Inv(w.(drv := Open(w.drv, f, k), used := w.used + {f}))
  {
    hide FilesOk, BoardsOk, SlotsOk, TableOk;
    FilesOpen(w, f, k);
    BoardsOpen(w, f, k);
    OpenStatus(w.drv, f, k);
    StatusFrame(w.drv, Open(w.drv, f, k));
  }

  lemma OpenStatus(d: Driver, f: FileId, k: nat)
    requires Shaped(d) && k < |d.slots|
    ensures Shaped(Open(d, f, k)) && SameStatus(d, Open(d, f, k))
  {
  }

  lemma ReleaseStatus(d: Driver, f: FileId, k: nat)
    requires Shaped(d) && k < |d.slots|
    ensures Shaped(Release(d, f, k)) && SameStatus(d, Release(d, f, k))
  {
    hide Without;
  }

  lemma InvBegin(w: World, f: FileId)
    requires Inv(w) && f in w.drv.target && f !in w.releasing
    ensures Inv(w.(releasing := w.releasing[f := w.drv.target[f]]))
  {
    hide FilesOk, BoardsOk, SlotsOk, TableOk;
    FilesBegin(w, f);
    BoardsBegin(w, f);
  }

  lemma InvRelease(w: World, f: FileId)
    requires Inv(w) && f in w.releasing
    ensures Inv(Released(w, f))
  {
    hide FilesOk, BoardsOk, SlotsOk, TableOk, Release;
    FilesRelease(w, f);
    BoardsRelease(w, f);
    ReleaseStatus(w.drv, f, w.releasing[f]);
    StatusFrame(w.drv, Release(w.drv, f, w.releasing[f]));
  }

  lemma ProbeFiles(d: Driver, k: nat, b: Board)
    requires Shaped(d) && k < PCIEDEV_NR_DEVS && BoardOk(b)
    ensures Shaped(Probe(d, k, b).0) && SameFiles(d, Probe(d, k, b).0)
  {
  }

  lemma InvProbe(w: World, k: nat, b: Board)
    requires Inv(w) && k < PCIEDEV_NR_DEVS && BoardOk(b) && !w.drv.slots[k].bound && PhysFree(w.drv, b.physSlot)
    ensures Inv(Probed(w, k, b))
  {
    assert !w.drv.slots[k].active;
    hide FilesOk, BoardsOk, SlotsOk, TableOk, ProbedEntry, ProbedBars, PhysFree, Shaped, SameFiles;
    ProbeFiles(w.drv, k, b);
    BoardsProbe(w, k, b);
    FilesFrame(w, Probed(w, k, b));
    SlotsProbe(w.drv, k, b);
    if b.enable != 0 {
      TableFailed(w.drv, k, true);
    } else if b.regions != 0 {
      TableFailed(w.drv, k, false);
    } else {
      TableProbed(w.drv, k, b);
    }
  }

  lemma UnplugFiles(d: Driver, k: nat)
    requires Shaped(d) && k < PCIEDEV_NR_DEVS && d.slots[k].physSlot < NUMBER_OF_SLOTS
    ensures Shaped(Unplugged(d, k)) && SameFiles(d, Unplugged(d, k))
  {
  }

  lemma InvRemove(w: World, k: nat)
    requires Inv(w) && k < PCIEDEV_NR_DEVS && w.drv.slots[k].active && w.drv.slots[k].physSlot < NUMBER_OF_SLOTS
    ensures Inv(Removed(w, k))
  {
    hide FilesOk, BoardsOk, SlotsOk, TableOk, MoveAll, Unplugged, SameFiles;
    var d1 := Unplugged(w.drv, k);
    UnplugFiles(w.drv, k);
    UnplugSameLength(w.drv, k);
    FilesFrame(w, w.(drv := d1));
    FilesMoveAll(w.(drv := d1), k);
    BoardsRemove(w, k);
    SlotsUnplug(w.drv, k);
    TableUnplug(w.drv, k);
    MoveAllStatus(d1, k);
    StatusFrame(d1, MoveAll(d1, k));
  }

  lemma UnplugSameLength(d: Driver, k: nat)
    requires Shaped(d) && k < PCIEDEV_NR_DEVS && d.slots[k].physSlot < NUMBER_OF_SLOTS
    ensures var d1 := Unplugged(d, k); |d1.slots| == |d.slots| && d1.slots[k].files == d.slots[k].files
  {
  }

  lemma InvTest(w: World, c: CallId, f: FileId)
    requires Inv(w) && f in w.drv.target
    ensures Inv(AfterTest(w, c, f))
  {
    hide BoardsOk, SlotsOk, TableOk, ListOk, CountersOk, ReleaseOk;
    BoardsTest(w, c, f);
    FilesFrame(w, AfterTest(w, c, f));
  }

  lemma InvEnter(w: World, c: CallId)
    requires Inv(w) && c in w.calls
    ensures Inv(w.(calls := w.calls - {c}))
  {
    hide BoardsOk, SlotsOk, TableOk, ListOk, CountersOk, ReleaseOk;
    BoardsEnter(w, c);
    FilesFrame(w, w.(calls := w.calls - {c}));
  }

  lemma InvStep(w: World, l: Label, w': World)
    requires Inv(w) && Step(w, l, w')
    ensures Inv(w')
  {
    hide Inv, Open, Released, Probed, Removed, AfterTest;
    match l
    case OpenFile(f, k) => InvOpen(w, f, k);
    case BeginRelease(f) => InvBegin(w, f);
    case EndRelease(f) => InvRelease(w, f);
    case ProbeBoard(k, b) => InvProbe(w, k, b);
    case RemoveBoard(k) => InvRemove(w, k);
    case TestStatus(c, f, _) => InvTest(w, c, f);
    case EnterDevice(c, _) => InvEnter(w, c);
  }

  // ----- runs -----

  ghost predicate IsRun(ws: seq<World>, ls: seq<Label>) {
    |ws| == |ls| + 1 && ws[0] == Start() && forall i {:trigger ls[i]} :: 0 <= i < |ls| ==> Step(ws[i], ls[i], ws[i + 1])
  }

  /** The invariants hold in every state of every run. */
  lemma {:induction false} InvHolds(ws: seq<World>, ls: seq<Label>, i: nat)
    requires IsRun(ws, ls) && i < |ws|
    ensures Inv(ws[i])
  {
    hide Inv, Step;
    if i == 0 {
      InvStart();
    } else {
      InvHolds(ws, ls, i - 1);
      var l := ls[i - 1];
      InvStep(ws[i - 1], l, ws[i]);
    }
  }

  ghost predicate Gone(w: World, f: FileId) {
    Shaped(w.drv) && f in w.used && (f in w.drv.target ==> w.drv.target[f] == PCIEDEV_NR_DEVS)
  }

  /** A file on the null device never gets back to a board. */
  lemma GoneStays(w: World, l: Label, w': World, f: FileId)
    requires Inv(w) && Step(w, l, w') && Gone(w, f)
    ensures Gone(w', f)
  {
    hide Inv, FilesOk, MoveAll, ProbedBars, ProbedEntry, EmptyEntry, Without, FirstFree, Unplugged, PhysFree;
    InvFiles(w);
    match l
    case RemoveBoard(k) => GoneRemoved(w, k, f);
    case ProbeBoard(k, b) => ProbeFiles(w.drv, k, b);
    case _ =>
  }

  lemma InvFiles(w: World)
    requires Inv(w)
    ensures FilesOk(w)
  {
    hide FilesOk;
  }

  lemma GoneRemoved(w: World, k: nat, f: FileId)
    requires FilesOk(w) && k < PCIEDEV_NR_DEVS && w.drv.slots[k].physSlot < NUMBER_OF_SLOTS && Gone(w, f)
    ensures Gone(Removed(w, k), f)
  {
    assert ListOk(w.drv, k);
    var d1 := Unplugged(w.drv, k);
    assert ListOk(d1, k);
    hide ListOk, MoveAll, ClearedBars, EmptyEntry, FilesOk;
    MoveAllTargets(d1, k);
  }

  lemma RemovedFile(w: World, k: nat, f: FileId)
    requires Inv(w) && k < PCIEDEV_NR_DEVS && w.drv.slots[k].physSlot < NUMBER_OF_SLOTS
    requires f in w.drv.target && w.drv.target[f] == k
    ensures Gone(Removed(w, k), f)
  {
    assert ListOk(w.drv, k);
    var d1 := Unplugged(w.drv, k);
    assert ListOk(d1, k);
    hide ListOk, MoveAll, ClearedBars, EmptyEntry, BoardsOk, SlotsOk, TableOk;
    MoveAllTargets(d1, k);
  }

  lemma {:induction false} GoneForEver(ws: seq<World>, ls: seq<Label>, i: nat, j: nat, f: FileId)
    requires IsRun(ws, ls) && i <= j < |ws| && Gone(ws[i], f)
    ensures Gone(ws[j], f)
    decreases j
  {
    hide Inv, Gone, Step;
    if i < j {
      GoneForEver(ws, ls, i, j - 1, f);
      InvHolds(ws, ls, j - 1);
      var l := ls[j - 1];
      GoneStays(ws[j - 1], l, ws[j], f);
    }
  }

  /**
   After a board is removed, every file that was open on it fails the status test of read, write and ioctl in every
   later state in which it is still open, whatever boards the slot has held since. HotplugCalls.dfy says what becomes of
   calls that were past the test already.
   */
  lemma StaleHandlesRefused(ws: seq<World>, ls: seq<Label>, i: nat, j: nat, f: FileId, k: nat, call: Call)
    requires IsRun(ws, ls) && i < |ls| && ls[i] == RemoveBoard(k) && i < j < |ws|
    requires f in ws[i].drv.target && ws[i].drv.target[f] == k
    ensures f in ws[j].drv.target ==>
      Shaped(ws[j].drv) && Gate(ws[j].drv, f, call) == if call.ReadCall? then -ENODEV else -EFAULT
  {
    InvHolds(ws, ls, i);
    InvHolds(ws, ls, j);
    assert Step(ws[i], ls[i], ws[i + 1]);
    hide FilesOk, BoardsOk, TableOk, CountActive, IsRun, Removed, Unmapped;
    RemovedFile(ws[i], k, f);
    GoneForEver(ws, ls, i + 1, j, f);
  }

  /**
   File bookkeeping in every reachable state: the list of an ordinary slot holds the open files that point to it,
   once each; its counter is the length of the list plus all files ever moved away minus the releases that a remove
   overtook; the null device's counter exceeds the number of open files that point to it by all such releases.
   */
  lemma FileBookkeeping(ws: seq<World>, ls: seq<Label>, i: nat)
    requires IsRun(ws, ls) && i < |ws|
    ensures var d := ws[i].drv;
      && WorldShaped(ws[i])
      && d.slots[PCIEDEV_NR_DEVS].ref == |Pointing(d.target, PCIEDEV_NR_DEVS)| + Total(ws[i].overtaken)
      && forall k: nat :: k < PCIEDEV_NR_DEVS ==>
           && Distinct(d.slots[k].files)
           && (forall f :: f in d.slots[k].files <==> f in Pointing(d.target, k))
           && d.slots[k].ref == |d.slots[k].files| + ws[i].moved[k] - ws[i].overtaken[k]
  {
    InvHolds(ws, ls, i);
    hide BoardsOk, SlotsOk, TableOk, IsRun, Total, ReleaseOk;
    forall k: nat | k < PCIEDEV_NR_DEVS
      ensures Distinct(ws[i].drv.slots[k].files)
      ensures forall f :: f in ws[i].drv.slots[k].files <==> f in Pointing(ws[i].drv.target, k)
    {
      assert ListOk(ws[i].drv, k);
    }
  }

  /**
   The search of probe finds the lowest free slot and never the null device; it runs off the table exactly when
   all ordinary slots are bound, so its own test for a full table never succeeds.
   */
  lemma SlotSearch(ws: seq<World>, ls: seq<Label>, i: nat)
    requires IsRun(ws, ls) && i < |ws|
    ensures Shaped(ws[i].drv)
    ensures var s := ws[i].drv.slots; var r := FirstFree(s, 0);
      && r != PCIEDEV_NR_DEVS
      && (r == PCIEDEV_NR_DEVS + 1 <==> forall k :: 0 <= k < PCIEDEV_NR_DEVS ==> s[k].bound)
      && (r < PCIEDEV_NR_DEVS ==> !s[r].bound && forall k :: 0 <= k < r ==> s[k].bound)
  {
    InvHolds(ws, ls, i);
    hide FilesOk, BoardsOk, TableOk, IsRun, CountActive, Unmapped;
  }

  /**
   Active slots are bound, the module count is the number of active slots, and the address table shows exactly the active
   boards: the entry of any other physical slot is all zeros.
   */
  lemma SlotTableConsistent(ws: seq<World>, ls: seq<Label>, i: nat)
    requires IsRun(ws, ls) && i < |ws|
    ensures SlotsOk(ws[i].drv) && TableOk(ws[i].drv)
    ensures forall p: nat :: p < NUMBER_OF_SLOTS && PhysFree(ws[i].drv, p) ==> ZeroEntry(ws[i].drv.table[p])
  {
    hide Inv, IsRun, SlotsOk;
    InvHolds(ws, ls, i);
    InvParts(ws[i]);
  }

  predicate ZeroEntry(e: Entry) {
    !e.sts && e.slotNum == 0 && e.bus == 0 && e.device == 0 && |e.bars| == 6 &&
    forall i :: 0 <= i < 6 ==> e.bars[i].start == 0 && e.bars[i].end == 0 && e.bars[i].flag == 0
  }

  lemma InvParts(w: World)
    requires Inv(w)
    ensures SlotsOk(w.drv) && TableOk(w.drv)
  {
    hide SlotsOk, TableOk;
  }

  /** A slot that was bound for a board that could not be enabled. */
  ghost predicate Leaked(w: World, k: nat) {
    Shaped(w.drv) && k < PCIEDEV_NR_DEVS && w.drv.slots[k].bound && !w.drv.slots[k].active
  }

  lemma LeakedStays(w: World, l: Label, w': World, k: nat)
    requires Step(w, l, w') && Leaked(w, k)
    ensures Leaked(w', k)
  {
    hide MoveAll, ProbedBars, ProbedEntry, Without;
    match l
    case RemoveBoard(m) =>
      UnplugFiles(w.drv, m);
      MoveAllStatus(Unplugged(w.drv, m), m);
    case ProbeBoard(m, b) => ProbeFiles(w.drv, m, b);
    case _ =>
  }

  lemma LeakedFirst(w: World, l: Label, w': World)
    requires Inv(w) && Step(w, l, w') && l.ProbeBoard? && l.info.enable != 0
    ensures Leaked(w', l.slot)
  {
    ProbeFiles(w.drv, l.slot, l.info);
    hide FilesOk, TableOk, BoardsOk, CountActive;
  }

  /** A failed pci_enable_device costs the driver a slot: it stays bound and inactive in all later states. */
  lemma {:induction false} LeakedForEver(ws: seq<World>, ls: seq<Label>, i: nat, j: nat)
    requires IsRun(ws, ls) && i < |ls| && i < j < |ws| && ls[i].ProbeBoard? && ls[i].info.enable != 0
    ensures Leaked(ws[j], ls[i].slot)
    decreases j
  {
    hide Step, Leaked, Inv;
    if j == i + 1 {
      InvHolds(ws, ls, i);
      var l := ls[i];
      LeakedFirst(ws[i], l, ws[i + 1]);
    } else {
      LeakedForEver(ws, ls, i, j - 1);
      var l := ls[j - 1];
      LeakedStays(ws[j - 1], l, ws[j], ls[i].slot);
    }
  }
}
