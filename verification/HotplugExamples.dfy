/**
 Runs that show what the driver does not guarantee: a call and a release overtaken by a remove, and a full slot table.
 */
module HotplugExamples {
  import opened HotplugSpec
  import opened HotplugRuns
  import opened HotplugSteps
  import opened HotplugTheorems
  import opened HotplugCalls

  /** A board the kernel accepts, with BAR 0 mapped. */
  function GoodBoard(): (b: Board)
    ensures BoardOk(b) && Succeeds(b) && b.res[0].start != 0 && b.iomap[0]
  {
    Board(0, 0, 3, 1, 2, seq(BARS, _ => Range(0x1000, 0x2000, 0)), seq(BARS, _ => true))
  }

  lemma Extend(ws: seq<World>, ls: seq<Label>, l: Label, w: World) returns (ws': seq<World>, ls': seq<Label>)
    requires IsRun(ws, ls) && Step(ws[|ls|], l, w)
    ensures IsRun(ws', ls') && ws' == ws + [w] && ls' == ls + [l]
  {
    hide Step;
    ws', ls' := ws + [w], ls + [l];
    forall i | 0 <= i < |ls'| ensures Step(ws'[i], ls'[i], ws'[i + 1]) {
      if i < |ls| {
        var prev := ls[i];
        assert ws'[i] == ws[i] && ws'[i + 1] == ws[i + 1] && ls'[i] == prev;
      }
    }
  }

  /** Only slot 0 is in use: it holds a board with BAR 0 mapped, or nothing. */
  ghost predicate OneSlot(w: World, on: bool) {
    && WorldShaped(w)
    && w.drv.slots[0].active == on && w.drv.slots[0].bound == on
    && (forall k :: 0 < k < |w.drv.slots| ==> !w.drv.slots[k].active)
    && (on ==> w.drv.slots[0].physSlot < NUMBER_OF_SLOTS && w.drv.slots[0].bars[0].mapped)
  }

  lemma ProbeOne(w: World)
    requires OneSlot(w, false)
    ensures var w' := Probed(w, 0, GoodBoard());
      && Step(w, ProbeBoard(0, GoodBoard()), w') && OneSlot(w', true)
      && w' == w.(drv := w'.drv, board := w.board[0 := w.boards], boards := w.boards + 1)
      && w'.drv.target == w.drv.target
  {
    hide GoodBoard, ProbedEntry;
    ProbeFiles(w.drv, 0, GoodBoard());
  }

  lemma RemoveOne(w: World)
    requires OneSlot(w, true) && Inv(w)
    ensures var w' := Removed(w, 0);
      && Step(w, RemoveBoard(0), w') && OneSlot(w', false)
      && w' == w.(drv := w'.drv, moved := w'.moved)
      && w'.drv.target.Keys == w.drv.target.Keys
      && forall f :: f in w.drv.target ==> w'.drv.target[f] == if w.drv.target[f] == 0 then PCIEDEV_NR_DEVS else w.drv.target[f]
  {
    RemovedTargets(w, 0);
    hide Inv, MoveAll, ClearedBars, EmptyEntry;
    UnplugFiles(w.drv, 0);
    MoveAllStatus(Unplugged(w.drv, 0), 0);
  }

  lemma OpenOne(w: World, f: FileId)
    requires OneSlot(w, true) && f !in w.used
    ensures var w' := w.(drv := Open(w.drv, f, 0), used := w.used + {f});
      && Step(w, OpenFile(f, 0), w') && OneSlot(w', true) && w'.drv.target == w.drv.target[f := 0]
  {
  }

  lemma TestOne(w: World, c: CallId, f: FileId)
    requires OneSlot(w, true) && c !in w.calls && f in w.drv.target && f !in w.releasing && w.drv.target[f] == 0
    ensures var w' := AfterTest(w, c, f);
      && Step(w, TestStatus(c, f, ReadCall), w') && OneSlot(w', true) && Gate(w.drv, f, ReadCall) == 0
      && w' == w.(tested := w'.tested, calls := w.calls[c := InFlight(f, 0, w.board[0])])
  {
  }

  lemma EnterOne(w: World, c: CallId)
    requires OneSlot(w, true) && c in w.calls && w.calls[c].slot == 0
    ensures var w' := w.(calls := w.calls - {c});
      && Step(w, EnterDevice(c, 0), w') && OneSlot(w', true) && Reach(w, c, 0) == Hit(w.board[0])
  {
  }

  /** A board is probed into slot 0 and a file opened on it. */
  lemma BoardAndFile() returns (ws: seq<World>, ls: seq<Label>)
    ensures IsRun(ws, ls) && ls == [ProbeBoard(0, GoodBoard()), OpenFile(7, 0)]
    ensures var w := ws[2];
      && OneSlot(w, true) && w.drv.target == map[7 := 0] && w.releasing == map[] && w.calls == map[]
      && w.overtaken == Zeros() && w.board[0] == 0 && w.boards == 1
  {
    assert OneSlot(Start(), false);
    hide GoodBoard, Step, OneSlot, Open;
    ws, ls := [Start()], [];
    ProbeOne(ws[0]);
    var w1 := Probed(ws[0], 0, GoodBoard());
    ws, ls := Extend(ws, ls, ProbeBoard(0, GoodBoard()), w1);
    OpenOne(w1, 7);
    ws, ls := Extend(ws, ls, OpenFile(7, 0), w1.(drv := Open(w1.drv, 7, 0), used := w1.used + {7}));
  }

  /**
   One open file reaches two boards: its second call passes the status test, and before it gets the lock the board is
   removed and another one probed into the slot.
   */
  lemma OvertakenCall() returns (ws: seq<World>, ls: seq<Label>)
    ensures IsRun(ws, ls) && |ls| == 8
    ensures ls == [ProbeBoard(0, GoodBoard()), OpenFile(7, 0), TestStatus(1, 7, ReadCall), EnterDevice(1, 0),
                   TestStatus(2, 7, ReadCall), RemoveBoard(0), ProbeBoard(0, GoodBoard()), EnterDevice(2, 0)]
    ensures WorldShaped(ws[3]) && 1 in ws[3].calls && ws[3].calls[1].file == 7 && Reach(ws[3], 1, 0) == Hit(0)
    ensures WorldShaped(ws[7]) && 2 in ws[7].calls && ws[7].calls[2].file == 7 && Reach(ws[7], 2, 0) == Hit(1)
  {
    hide GoodBoard, Step, OneSlot, Inv, Reach, AfterTest, Probed, Removed;
    ws, ls := BoardAndFile();
    ShapedOne(ws[2], true);
    TestOne(ws[2], 1, 7);
    var w3 := AfterTest(ws[2], 1, 7);
    ws, ls := Extend(ws, ls, TestStatus(1, 7, ReadCall), w3);
    EnterOne(w3, 1);
    var w4 := w3.(calls := w3.calls - {1});
    ws, ls := Extend(ws, ls, EnterDevice(1, 0), w4);
    TestOne(w4, 2, 7);
    var w5 := AfterTest(w4, 2, 7);
    ws, ls := Extend(ws, ls, TestStatus(2, 7, ReadCall), w5);
    InvHolds(ws, ls, 5);
    RemoveOne(w5);
    var w6 := Removed(w5, 0);
    ws, ls := Extend(ws, ls, RemoveBoard(0), w6);
    ShapedOne(w6, false);
    ProbeOne(w6);
    var w7 := Probed(w6, 0, GoodBoard());
    ws, ls := Extend(ws, ls, ProbeBoard(0, GoodBoard()), w7);
    EnterOne(w7, 2);
    ws, ls := Extend(ws, ls, EnterDevice(2, 0), w7.(calls := w7.calls - {2}));
    ShapedOne(w3, true);
    ShapedOne(w7, true);
  }

  lemma ShapedOne(w: World, on: bool)
    requires OneSlot(w, on)
    ensures WorldShaped(w)
  {
  }

  /**
   A release reads its slot, the board is removed and the file moved to the null device, then the release takes its count
   off the old slot: no file is open any more, and the null device counts one.
   */
  lemma OvertakenRelease() returns (ws: seq<World>, ls: seq<Label>)
    ensures IsRun(ws, ls) && |ls| == 5
    ensures ls == [ProbeBoard(0, GoodBoard()), OpenFile(7, 0), BeginRelease(7), RemoveBoard(0), EndRelease(7)]
    ensures WorldShaped(ws[5]) && ws[5].drv.target == map[] && ws[5].drv.slots[PCIEDEV_NR_DEVS].ref == 1
  {
    hide GoodBoard, Step, OneSlot, Inv, Removed, Released, Total, Pointing;
    ws, ls := BoardAndFile();
    BeginOne(ws[2], 7);
    var w3 := ws[2].(releasing := map[7 := 0]);
    ws, ls := Extend(ws, ls, BeginRelease(7), w3);
    InvHolds(ws, ls, 3);
    RemoveOne(w3);
    var w4 := Removed(w3, 0);
    ws, ls := Extend(ws, ls, RemoveBoard(0), w4);
    ShapedOne(w4, false);
    EndOne(w4, 7);
    ws, ls := Extend(ws, ls, EndRelease(7), Released(w4, 7));
    FileBookkeeping(ws, ls, 5);
    CountOne();
  }

  lemma BeginOne(w: World, f: FileId)
    requires OneSlot(w, true) && w.drv.target == map[f := 0] && w.releasing == map[]
    ensures var w' := w.(releasing := map[f := 0]); Step(w, BeginRelease(f), w') && OneSlot(w', true)
  {
  }

  lemma EndOne(w: World, f: FileId)
    requires OneSlot(w, false) && w.drv.target.Keys == {f} && w.drv.target[f] == PCIEDEV_NR_DEVS && w.releasing == map[f := 0]
    ensures var w' := Released(w, f);
      Step(w, EndRelease(f), w') && w'.drv.target == map[] && w'.overtaken == w.overtaken[0 := w.overtaken[0] + 1]
  {
    hide Without;
    assert w.drv.target - {f} == map[];
  }

  lemma CountOne()
    ensures Total(Zeros()[0 := 1]) == 1 && |Pointing(map[], PCIEDEV_NR_DEVS)| == 0
  {
    TotalZero(Zeros());
    TotalMore(Zeros(), 0);
    assert Pointing(map[], PCIEDEV_NR_DEVS) == {};
  }

  // ----- a full table -----

  /** A board that cannot be enabled. */
  function BadBoard(): (b: Board)
    ensures BoardOk(b) && b.enable != 0
  {
    GoodBoard().(enable := -5)
  }

  /** The first n slots and the null device are bound, and nothing is active. */
  ghost predicate Bound(w: World, n: nat) {
    && WorldShaped(w) && n <= PCIEDEV_NR_DEVS
    && forall k :: 0 <= k < |w.drv.slots| ==>
         !w.drv.slots[k].active && (w.drv.slots[k].bound <==> k < n || k == PCIEDEV_NR_DEVS)
  }

  lemma BindOne(w: World, n: nat)
    requires Bound(w, n) && n < PCIEDEV_NR_DEVS
    ensures Step(w, ProbeBoard(n, BadBoard()), Probed(w, n, BadBoard())) && Bound(Probed(w, n, BadBoard()), n + 1)
  {
    hide BadBoard;
    ProbeFiles(w.drv, n, BadBoard());
  }

  lemma {:induction false} BindSlots(n: nat) returns (ws: seq<World>, ls: seq<Label>)
    requires n <= PCIEDEV_NR_DEVS
    ensures IsRun(ws, ls) && |ls| == n && Bound(ws[n], n)
  {
    if n == 0 {
      ws, ls := [Start()], [];
    } else {
      hide Step, Bound, BadBoard, Probed;
      ws, ls := BindSlots(n - 1);
      var w := ws[n - 1];
      BindOne(w, n - 1);
      ws, ls := Extend(ws, ls, ProbeBoard(n - 1, BadBoard()), Probed(w, n - 1, BadBoard()));
    }
  }

  /** Fifteen boards that cannot be enabled fill the table; the next search ends behind it, not at the test for a full one. */
  lemma FullTable() returns (ws: seq<World>, ls: seq<Label>)
    ensures IsRun(ws, ls) && |ls| == PCIEDEV_NR_DEVS
    ensures Shaped(ws[|ls|].drv) && FirstFree(ws[|ls|].drv.slots, 0) == PCIEDEV_NR_DEVS + 1
    ensures forall k :: 0 <= k < PCIEDEV_NR_DEVS ==> ws[|ls|].drv.slots[k].bound && !ws[|ls|].drv.slots[k].active
  {
    ws, ls := BindSlots(PCIEDEV_NR_DEVS);
    SlotSearch(ws, ls, |ls|);
    hide IsRun, Step;
  }
}
