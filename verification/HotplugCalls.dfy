/**
 What becomes of calls and releases that a remove overtakes between their first look at the device and its lock.
 */
module HotplugCalls {
  import opened HotplugSpec
  import opened HotplugRuns
  import opened HotplugSteps
  import opened HotplugTheorems

  // ----- what happens to a slot while a call waits -----

  /** The last thing that happened to the board of a slot. */
  datatype Change = Same | Gone | Replaced

  predicate Replaces(l: Label, k: nat) {
    l.ProbeBoard? && l.slot == k && Succeeds(l.info)
  }

  /** The last remove or successful probe of slot k in steps i to j - 1. */
  function LastChange(ls: seq<Label>, k: nat, i: nat, j: nat): Change
    requires i <= j <= |ls|
    decreases j
  {
    if i == j then Same
    else if ls[j - 1] == RemoveBoard(k) then Change.Gone
    else if Replaces(ls[j - 1], k) then Replaced
    else LastChange(ls, k, i, j - 1)
  }

  /** Slot k after a change, seen from a state in which it held board b and n boards had been probed. */
  ghost predicate SlotAfter(w: World, k: nat, b: nat, n: nat, change: Change) {
    && WorldShaped(w) && k < PCIEDEV_NR_DEVS && n <= w.boards
    && match change
       case Same => w.drv.slots[k].active && w.board[k] == b
       case Gone => !w.drv.slots[k].active
       case Replaced => w.drv.slots[k].active && n <= w.board[k]
  }

  function NextChange(l: Label, k: nat, change: Change): Change {
    if l == RemoveBoard(k) then Change.Gone else if Replaces(l, k) then Replaced else change
  }

  lemma RemovedSlot(w: World, m: nat, k: nat)
    requires WorldShaped(w) && m < PCIEDEV_NR_DEVS && k < PCIEDEV_NR_DEVS && w.drv.slots[m].physSlot < NUMBER_OF_SLOTS
    ensures WorldShaped(Removed(w, m))
    ensures Removed(w, m).drv.slots[k].active == (k != m && w.drv.slots[k].active)
    ensures k != m ==> Removed(w, m).drv.slots[k].bars == w.drv.slots[k].bars
  {
    hide MoveAll, ClearedBars, EmptyEntry;
    UnplugFiles(w.drv, m);
    MoveAllStatus(Unplugged(w.drv, m), m);
  }

  lemma ProbedSlot(w: World, m: nat, b: Board, k: nat)
    requires WorldShaped(w) && m < PCIEDEV_NR_DEVS && k < PCIEDEV_NR_DEVS && BoardOk(b) && (m == k ==> !w.drv.slots[k].active)
    ensures var w' := Probed(w, m, b); var ok := Succeeds(b);
      && |w'.drv.slots| == |w.drv.slots| && |w'.board| == |w.board|
      && w'.boards == w.boards + (if ok then 1 else 0)
      && w'.drv.slots[k].active == (w.drv.slots[k].active || (m == k && ok))
      && w'.board[k] == (if m == k && ok then w.boards else w.board[k])
  {
    hide ProbedBars, ProbedEntry;
  }

  /** What a step does to the board of slot k. */
  lemma SlotChange(w: World, l: Label, w': World, k: nat)
    requires Inv(w) && Step(w, l, w') && k < PCIEDEV_NR_DEVS
    ensures |w'.drv.slots| == |w.drv.slots| && |w'.board| == |w.board| && w'.boards >= w.boards
    ensures w'.drv.slots[k].active == (l != RemoveBoard(k) && (Replaces(l, k) || w.drv.slots[k].active))
    ensures w'.board[k] == if Replaces(l, k) then w.boards else w.board[k]
  {
    hide Inv, MoveAll, Without, Removed, Probed;
    InvShape(w);
    BoundIfActive(w, k);
    match l
    case RemoveBoard(m) =>
      RemovedSlot(w, m, k);
      RemovedRest(w, m);
    case ProbeBoard(m, b) => ProbedSlot(w, m, b, k);
    case _ =>
  }

  lemma SlotStep(w: World, l: Label, w': World, k: nat, b: nat, n: nat, change: Change)
    requires Inv(w) && Step(w, l, w') && SlotAfter(w, k, b, n, change)
    ensures SlotAfter(w', k, b, n, NextChange(l, k, change))
  {
    hide Inv, Step;
    InvStep(w, l, w');
    InvShape(w');
    SlotChange(w, l, w', k);
  }

  lemma InvShape(w: World)
    requires Inv(w)
    ensures WorldShaped(w)
  {
  }

  lemma RemovedRest(w: World, m: nat)
    requires WorldShaped(w) && m < PCIEDEV_NR_DEVS && w.drv.slots[m].physSlot < NUMBER_OF_SLOTS
    ensures var w' := Removed(w, m); w'.board == w.board && w'.boards == w.boards && w'.calls == w.calls
  {
  }

  lemma BoundIfActive(w: World, k: nat)
    requires Inv(w) && k < PCIEDEV_NR_DEVS
    ensures w.drv.slots[k].active ==> w.drv.slots[k].bound && w.board[k] < w.boards
    ensures !w.drv.slots[k].active ==> Unmapped(w.drv.slots[k])
  {
  }

  /** The slot a call holds on to, from its test on. */
  lemma {:induction false} SlotHistory(ws: seq<World>, ls: seq<Label>, k: nat, i: nat, j: nat)
    requires IsRun(ws, ls) && i <= j < |ws| && k < PCIEDEV_NR_DEVS
    requires WorldShaped(ws[i]) && ws[i].drv.slots[k].active
    ensures SlotAfter(ws[j], k, ws[i].board[k], ws[i].boards, LastChange(ls, k, i, j))
    decreases j
  {
    hide Inv, Step;
    if i < j {
      SlotHistory(ws, ls, k, i, j - 1);
      InvHolds(ws, ls, j - 1);
      var l := ls[j - 1];
      SlotStep(ws[j - 1], l, ws[j], k, ws[i].board[k], ws[i].boards, LastChange(ls, k, i, j - 1));
    }
  }

  /** The slot was removed, probed again with success, and not removed since. */
  ghost predicate ReplacedBetween(ls: seq<Label>, k: nat, i: nat, j: nat) {
    exists r: nat, q: nat ::
      i <= r < q < j <= |ls| && ls[r] == RemoveBoard(k) && Replaces(ls[q], k) &&
      forall m :: q < m < j ==> ls[m] != RemoveBoard(k)
  }

  lemma {:induction false} LastChangeNotGone(ls: seq<Label>, k: nat, i: nat, q: nat, j: nat)
    requires i <= q < j <= |ls| && Replaces(ls[q], k) && forall m :: q < m < j ==> ls[m] != RemoveBoard(k)
    ensures LastChange(ls, k, i, j) == Replaced
    decreases j
  {
    if q < j - 1 {
      LastChangeNotGone(ls, k, i, q, j - 1);
    }
  }

  /** The successful probe behind a Replaced. */
  lemma {:induction false} ReplacedAt(ls: seq<Label>, k: nat, i: nat, j: nat) returns (q: nat)
    requires i <= j <= |ls| && LastChange(ls, k, i, j) == Replaced
    ensures i <= q < j && Replaces(ls[q], k) && forall m :: q < m < j ==> ls[m] != RemoveBoard(k)
    decreases j
  {
    if Replaces(ls[j - 1], k) {
      q := j - 1;
    } else {
      q := ReplacedAt(ls, k, i, j - 1);
    }
  }

  lemma {:induction false} GoneAt(ls: seq<Label>, k: nat, i: nat, j: nat) returns (r: nat)
    requires i <= j <= |ls| && LastChange(ls, k, i, j) == Change.Gone
    ensures i <= r < j && ls[r] == RemoveBoard(k)
    decreases j
  {
    if ls[j - 1] == RemoveBoard(k) {
      r := j - 1;
    } else {
      r := GoneAt(ls, k, i, j - 1);
    }
  }

  /** A successful probe of a slot that was active takes a remove first. */
  lemma ReplacedIff(ws: seq<World>, ls: seq<Label>, k: nat, i: nat, j: nat)
    requires IsRun(ws, ls) && i <= j < |ws| && k < PCIEDEV_NR_DEVS
    requires WorldShaped(ws[i]) && ws[i].drv.slots[k].active
    ensures LastChange(ls, k, i, j) == Replaced <==> ReplacedBetween(ls, k, i, j)
  {
    if LastChange(ls, k, i, j) == Replaced {
      var q := ReplacedAt(ls, k, i, j);
      SlotHistory(ws, ls, k, i, q);
      InvHolds(ws, ls, q);
      BoundIfActive(ws[q], k);
      assert Step(ws[q], ls[q], ws[q + 1]);
      var r := GoneAt(ls, k, i, q);
      assert i <= r < q < j && ls[r] == RemoveBoard(k) && Replaces(ls[q], k);
    }
    if ReplacedBetween(ls, k, i, j) {
      var r: nat, q: nat :|
        i <= r < q < j <= |ls| && ls[r] == RemoveBoard(k) && Replaces(ls[q], k) &&
        forall m :: q < m < j ==> ls[m] != RemoveBoard(k);
      LastChangeNotGone(ls, k, i, q, j);
    }
  }

  // ----- a call from its test to its access -----

  predicate Enters(l: Label, c: CallId) {
    l.EnterDevice? && l.call == c
  }

  /** Call c passes its test at step i and enters the device at step j. */
  ghost predicate CallSpan(ws: seq<World>, ls: seq<Label>, i: nat, j: nat, c: CallId, f: FileId, kind: Call, bar: nat) {
    && IsRun(ws, ls) && |ws| == |ls| + 1 && i < j < |ls|
    && ls[i] == TestStatus(c, f, kind) && ls[j] == EnterDevice(c, bar)
    && Allowed(ws[i], ls[i]) && Gate(ws[i].drv, f, kind) == 0
    && (forall m :: i < m < j ==> !Enters(ls[m], c))
  }

  lemma CallsStep(w: World, l: Label, w': World, c: CallId)
    requires Step(w, l, w') && c in w.calls && !Enters(l, c)
    ensures c in w'.calls && w'.calls[c] == w.calls[c]
  {
  }

  lemma {:induction false} CallKept(ws: seq<World>, ls: seq<Label>, i: nat, j: nat, c: CallId)
    requires IsRun(ws, ls) && i <= j < |ws| && c in ws[i].calls
    requires forall m :: i <= m < j ==> !Enters(ls[m], c)
    ensures c in ws[j].calls && ws[j].calls[c] == ws[i].calls[c]
    decreases j
  {
    hide Step, Enters;
    if i < j {
      CallKept(ws, ls, i, j - 1, c);
      var l := ls[j - 1];
      CallsStep(ws[j - 1], l, ws[j], c);
    }
  }

  lemma CallStarts(ws: seq<World>, ls: seq<Label>, i: nat, j: nat, c: CallId, f: FileId, kind: Call, bar: nat)
    requires CallSpan(ws, ls, i, j, c, f, kind, bar)
    ensures var k := ws[i].drv.target[f];
      && k < PCIEDEV_NR_DEVS && ws[i].drv.slots[k].active
      && c in ws[i + 1].calls && ws[i + 1].calls[c] == InFlight(f, k, ws[i].board[k])
      && ws[i].board[k] in Tested(ws[i + 1], f)
      && ws[i + 1].board == ws[i].board && ws[i + 1].drv == ws[i].drv && ws[i].board[k] < ws[i + 1].boards
  {
    InvHolds(ws, ls, i);
    assert Step(ws[i], ls[i], ws[i + 1]);
    NullInactive(ws[i]);
    var k := ws[i].drv.target[f];
    if k < PCIEDEV_NR_DEVS {
      BoundIfActive(ws[i], k);
    }
    hide Inv, IsRun;
  }

  lemma NullInactive(w: World)
    requires Inv(w)
    ensures !w.drv.slots[PCIEDEV_NR_DEVS].active
  {
  }

  /** Where a call that tested a board ends up. */
  ghost predicate EndsUp(w: World, c: CallId, bar: nat, b: nat, change: Change) {
    && WorldShaped(w) && c in w.calls && bar < BARS
    && match change
       case Same => Reach(w, c, bar) == Refused || Reach(w, c, bar) == Hit(b)
       case Gone => Reach(w, c, bar) == Refused
       case Replaced => Reach(w, c, bar) == Refused || (Reach(w, c, bar).Hit? && Reach(w, c, bar).board > b)
  }

  /**
   A call that passed its status test goes to the board it tested, if nothing happened to the slot since; is refused
   with -EFAULT, if the board was removed and none took its place; and goes to the new board, if one did.
   */
  lemma CallOutcome(ws: seq<World>, ls: seq<Label>, i: nat, j: nat, c: CallId, f: FileId, kind: Call, bar: nat)
    requires CallSpan(ws, ls, i, j, c, f, kind, bar)
    ensures var k := ws[i].drv.target[f];
      k < PCIEDEV_NR_DEVS && EndsUp(ws[j], c, bar, ws[i].board[k], LastChange(ls, k, i + 1, j))
  {
    hide Inv, IsRun, Step, LastChange, Unmapped;
    CallStarts(ws, ls, i, j, c, f, kind, bar);
    var k := ws[i].drv.target[f];
    ShapeAt(ws, ls, i + 1);
    CallKept(ws, ls, i + 1, j, c);
    SlotHistory(ws, ls, k, i + 1, j);
    EntryAt(ws, ls, j, c, bar, k);
  }

  lemma ShapeAt(ws: seq<World>, ls: seq<Label>, i: nat)
    requires IsRun(ws, ls) && i < |ws|
    ensures WorldShaped(ws[i])
  {
    InvHolds(ws, ls, i);
  }

  /** At the entry of a call an inactive slot maps no BAR. */
  lemma EntryAt(ws: seq<World>, ls: seq<Label>, j: nat, c: CallId, bar: nat, k: nat)
    requires IsRun(ws, ls) && j < |ls| && ls[j] == EnterDevice(c, bar) && k < PCIEDEV_NR_DEVS
    ensures WorldShaped(ws[j]) && c in ws[j].calls && bar < BARS
    ensures ws[j].drv.slots[k].active || !ws[j].drv.slots[k].bars[bar].mapped
  {
    InvHolds(ws, ls, j);
    BoundIfActive(ws[j], k);
    assert Step(ws[j], ls[j], ws[j + 1]);
    hide Inv, IsRun;
  }

  /**
   A call reaches a board other than the one it tested if and only if, between test and entry, the board of its slot was
   removed, another was probed into the slot and not removed again, and that board maps the BAR asked for.
   */
  lemma OtherBoardIff(ws: seq<World>, ls: seq<Label>, i: nat, j: nat, c: CallId, f: FileId, kind: Call, bar: nat)
    requires CallSpan(ws, ls, i, j, c, f, kind, bar)
    ensures var k := ws[i].drv.target[f];
      && k < PCIEDEV_NR_DEVS && WorldShaped(ws[j]) && c in ws[j].calls && bar < BARS
      && ((Reach(ws[j], c, bar).Hit? && Reach(ws[j], c, bar) != Hit(ws[i].board[k])) <==>
          (ReplacedBetween(ls, k, i + 1, j) && ws[j].drv.slots[k].bars[bar].mapped))
  {
    CallOutcome(ws, ls, i, j, c, f, kind, bar);
    CallStarts(ws, ls, i, j, c, f, kind, bar);
    InvHolds(ws, ls, i + 1);
    InvShape(ws[i + 1]);
    hide Inv, IsRun, Step, LastChange, ReplacedBetween;
    CallKept(ws, ls, i + 1, j, c);
    ReplacedIff(ws, ls, ws[i].drv.target[f], i + 1, j);
  }

  // ----- one board per handle -----

  lemma TestedGrows(w: World, l: Label, w': World, f: FileId)
    requires Step(w, l, w')
    ensures Tested(w, f) <= Tested(w', f)
  {
  }

  lemma {:induction false} TestedStays(ws: seq<World>, ls: seq<Label>, i: nat, j: nat, f: FileId)
    requires IsRun(ws, ls) && i <= j < |ws|
    ensures Tested(ws[i], f) <= Tested(ws[j], f)
    decreases j
  {
    if i < j {
      hide Step, Tested;
      TestedStays(ws, ls, i, j - 1, f);
      var l := ls[j - 1];
      TestedGrows(ws[j - 1], l, ws[j], f);
    }
  }

  lemma OnlyOne(r: set<nat>, a: nat, b: nat)
    requires |r| <= 1 && a in r && b in r
    ensures a == b
  {
    assert |r - {a}| == |r| - 1;
    assert r - {a} == {};
  }

  /** All status tests that one open file passes are of the same board. */
  lemma OneBoardTested(ws: seq<World>, ls: seq<Label>, i: nat, j: nat, f: FileId, a: nat, b: nat)
    requires IsRun(ws, ls) && i < |ws| && j < |ws| && a in Tested(ws[i], f) && b in Tested(ws[j], f)
    ensures a == b
  {
    var n := if i < j then j else i;
    TestedStays(ws, ls, i, n, f);
    TestedStays(ws, ls, j, n, f);
    InvHolds(ws, ls, n);
    assert HandleOk(ws[n], f);
    hide Tested, IsRun;
    OnlyOne(Tested(ws[n], f), a, b);
  }

  /** All calls of one open file that reach hardware reach the same board, unless a new board overtook one of them. */
  lemma OneBoardPerHandle(ws: seq<World>, ls: seq<Label>, f: FileId,
                          i: nat, j: nat, c: CallId, kind: Call, bar: nat,
                          i': nat, j': nat, c': CallId, kind': Call, bar': nat)
    requires CallSpan(ws, ls, i, j, c, f, kind, bar) && CallSpan(ws, ls, i', j', c', f, kind', bar')
    requires !ReplacedBetween(ls, ws[i].drv.target[f], i + 1, j) && !ReplacedBetween(ls, ws[i'].drv.target[f], i' + 1, j')
    ensures WorldShaped(ws[j]) && c in ws[j].calls && bar < BARS
    ensures WorldShaped(ws[j']) && c' in ws[j'].calls && bar' < BARS
    ensures Reach(ws[j], c, bar).Hit? && Reach(ws[j'], c', bar').Hit? ==> Reach(ws[j], c, bar) == Reach(ws[j'], c', bar')
  {
    OtherBoardIff(ws, ls, i, j, c, f, kind, bar);
    OtherBoardIff(ws, ls, i', j', c', f, kind', bar');
    CallStarts(ws, ls, i, j, c, f, kind, bar);
    CallStarts(ws, ls, i', j', c', f, kind', bar');
    hide IsRun, ReplacedBetween, Tested;
    OneBoardTested(ws, ls, i + 1, i' + 1, f, ws[i].board[ws[i].drv.target[f]], ws[i'].board[ws[i'].drv.target[f]]);
  }

  // ----- a release from its look at the file to its section -----

  /** The release of f reads its device at step i and runs its section at step j. */
  ghost predicate ReleaseSpan(ws: seq<World>, ls: seq<Label>, i: nat, j: nat, f: FileId) {
    && IsRun(ws, ls) && i < j < |ls| && ls[i] == BeginRelease(f) && ls[j] == EndRelease(f)
    && Allowed(ws[i], ls[i]) && (forall m :: i < m < j ==> ls[m] != EndRelease(f))
  }

  /** An open file keeps its slot until that is removed; then it goes to the null device. */
  lemma TargetStep(w: World, l: Label, w': World, f: FileId)
    requires Inv(w) && Step(w, l, w') && f in w.drv.target && l != EndRelease(f)
    ensures f in w'.drv.target
    ensures w'.drv.target[f] == if l == RemoveBoard(w.drv.target[f]) then PCIEDEV_NR_DEVS else w.drv.target[f]
  {
    UsedIfOpen(w, f);
    hide Inv, MoveAll, Without, ProbedBars, ProbedEntry, FirstFree, ListOk;
    match l
    case RemoveBoard(k) => RemovedTargets(w, k);
    case ProbeBoard(k, b) => ProbeFiles(w.drv, k, b);
    case _ =>
  }

  lemma UsedIfOpen(w: World, f: FileId)
    requires Inv(w) && f in w.drv.target
    ensures f in w.used
  {
    hide SlotsOk, TableOk, BoardsOk, ListOk, CountersOk, ReleaseOk;
  }

  lemma ReleaseStep(w: World, l: Label, w': World, f: FileId)
    requires Inv(w) && Step(w, l, w') && f in w.releasing && l != EndRelease(f)
    ensures f in w.drv.target && f in w'.drv.target && f in w'.releasing && w'.releasing[f] == w.releasing[f]
    ensures w'.drv.target[f] == if l == RemoveBoard(w.drv.target[f]) then PCIEDEV_NR_DEVS else w.drv.target[f]
  {
    hide Inv, Open, Release, Probe, Remove;
    FileParts(w, f);
    TargetStep(w, l, w', f);
  }

  lemma FileParts(w: World, f: FileId)
    requires Inv(w) && f in w.releasing
    ensures f in w.drv.target && f in w.used
  {
    hide SlotsOk, TableOk, BoardsOk, ListOk, CountersOk;
    assert ReleaseOk(w.drv, f, w.releasing[f]);
  }

  lemma RemovedTargets(w: World, k: nat)
    requires Inv(w) && k < PCIEDEV_NR_DEVS && w.drv.slots[k].physSlot < NUMBER_OF_SLOTS
    ensures var t := Removed(w, k).drv.target;
      && t.Keys == w.drv.target.Keys
      && forall f :: f in w.drv.target ==> t[f] == if w.drv.target[f] == k then PCIEDEV_NR_DEVS else w.drv.target[f]
  {
    assert ListOk(w.drv, k);
    var d1 := Unplugged(w.drv, k);
    assert ListOk(d1, k);
    hide ListOk, MoveAll, ClearedBars, EmptyEntry, Inv;
    MoveAllTargets(d1, k);
  }

  ghost predicate RemovedBetween(ls: seq<Label>, k: nat, i: nat, j: nat) {
    exists m: nat :: i <= m < j <= |ls| && ls[m] == RemoveBoard(k)
  }

  lemma {:induction false} ReleaseHistory(ws: seq<World>, ls: seq<Label>, i: nat, j: nat, f: FileId, k: nat)
    requires IsRun(ws, ls) && i <= j < |ws| && f in ws[i].releasing && f in ws[i].drv.target && ws[i].drv.target[f] == k
    requires forall m :: i <= m < j ==> ls[m] != EndRelease(f)
    ensures f in ws[j].releasing && ws[j].releasing[f] == ws[i].releasing[f] && f in ws[j].drv.target
    ensures ws[j].drv.target[f] == if RemovedBetween(ls, k, i, j) then PCIEDEV_NR_DEVS else k
    decreases j
  {
    hide Inv, Step;
    if i < j {
      ReleaseHistory(ws, ls, i, j - 1, f, k);
      InvHolds(ws, ls, j - 1);
      var l := ls[j - 1];
      ReleaseStep(ws[j - 1], l, ws[j], f);
      NullNotRemoved(ws[j - 1], l, ws[j]);
      if RemovedBetween(ls, k, i, j - 1) {
        assert RemovedBetween(ls, k, i, j);
      } else if l == RemoveBoard(k) {
        assert RemovedBetween(ls, k, i, j);
      } else {
        assert !RemovedBetween(ls, k, i, j);
      }
    }
  }

  lemma NullNotRemoved(w: World, l: Label, w': World)
    requires Step(w, l, w')
    ensures l != RemoveBoard(PCIEDEV_NR_DEVS)
  {
  }

  lemma ReleaseBegins(w: World, f: FileId, w': World)
    requires Step(w, BeginRelease(f), w')
    ensures f in w.drv.target && w'.drv == w.drv && f in w'.releasing && w'.releasing[f] == w.drv.target[f]
  {
  }

  /** The count of overtaken releases goes up at exactly those whose slot was removed after they had read it. */
  lemma OvertakenIff(ws: seq<World>, ls: seq<Label>, i: nat, j: nat, f: FileId)
    requires ReleaseSpan(ws, ls, i, j, f)
    ensures var k := ws[i].drv.target[f];
      && WorldShaped(ws[j]) && k < |ws[j].overtaken| == |ws[j + 1].overtaken|
      && ws[j + 1].overtaken ==
         ws[j].overtaken[k := ws[j].overtaken[k] + if RemovedBetween(ls, k, i + 1, j) then 1 else 0]
  {
    var k := ws[i].drv.target[f];
    assert Step(ws[i], ls[i], ws[i + 1]) && Step(ws[j], ls[j], ws[j + 1]);
    ReleaseBegins(ws[i], f, ws[i + 1]);
    ReleaseHistory(ws, ls, i + 1, j, f, k);
    ReleaseEnds(ws[j], f, ws[j + 1]);
    NullKept(ws, ls, i + 1, j);
    assert ws[j].overtaken[k := ws[j].overtaken[k]] == ws[j].overtaken;
  }

  lemma ReleaseEnds(w: World, f: FileId, w': World)
    requires Step(w, EndRelease(f), w')
    ensures f in w.releasing && f in w.drv.target && w.releasing[f] < |w.overtaken|
    ensures w'.overtaken == var k := w.releasing[f];
      if w.drv.target[f] != k then w.overtaken[k := w.overtaken[k] + 1] else w.overtaken
  {
  }

  lemma NullKept(ws: seq<World>, ls: seq<Label>, i: nat, j: nat)
    requires IsRun(ws, ls) && i <= j < |ws|
    ensures !RemovedBetween(ls, PCIEDEV_NR_DEVS, i, j)
  {
    hide Step;
    forall m: nat | i <= m < j ensures ls[m] != RemoveBoard(PCIEDEV_NR_DEVS) {
      NullNotRemoved(ws[m], ls[m], ws[m + 1]);
    }
  }

  // ----- the life of a file -----

  lemma OpensAt(w: World, f: FileId, k: nat, w': World)
    requires Step(w, OpenFile(f, k), w')
    ensures f !in w.used && f in w'.drv.target && w'.drv.target[f] == k && f in w'.used
  {
  }

  /** From its open to its release a file points to the slot it was opened on, or to the null device once that slot was removed. */
  lemma {:induction false} FileHistory(ws: seq<World>, ls: seq<Label>, i: nat, j: nat, f: FileId, k: nat)
    requires IsRun(ws, ls) && i < |ls| && ls[i] == OpenFile(f, k) && i < j < |ws|
    requires forall m :: i < m < j ==> ls[m] != EndRelease(f)
    ensures f in ws[j].drv.target
    ensures ws[j].drv.target[f] == if RemovedBetween(ls, k, i + 1, j) then PCIEDEV_NR_DEVS else k
    decreases j
  {
    hide Inv, Step;
    if j == i + 1 {
      var l := ls[i];
      OpensAt(ws[i], f, k, ws[j]);
      assert !RemovedBetween(ls, k, i + 1, j);
    } else {
      FileHistory(ws, ls, i, j - 1, f, k);
      InvHolds(ws, ls, j - 1);
      var l := ls[j - 1];
      TargetStep(ws[j - 1], l, ws[j], f);
      NullNotRemoved(ws[j - 1], l, ws[j]);
      if RemovedBetween(ls, k, i + 1, j - 1) {
        assert RemovedBetween(ls, k, i + 1, j);
      } else if l == RemoveBoard(k) {
        assert RemovedBetween(ls, k, i + 1, j);
      } else {
        assert !RemovedBetween(ls, k, i + 1, j);
      }
    }
  }

  lemma ClosedStep(w: World, l: Label, w': World, f: FileId)
    requires Inv(w) && Step(w, l, w') && f in w.used && f !in w.drv.target
    ensures f in w'.used && f !in w'.drv.target
  {
    hide Inv, MoveAll, Without, ProbedBars, ProbedEntry, FirstFree, ListOk;
    match l
    case RemoveBoard(k) => RemovedTargets(w, k);
    case ProbeBoard(k, b) => ProbeFiles(w.drv, k, b);
    case _ =>
  }

  lemma ClosesAt(w: World, f: FileId, w': World)
    requires Inv(w) && Step(w, EndRelease(f), w')
    ensures f in w'.used && f !in w'.drv.target
  {
    UsedIfOpen(w, f);
    hide Inv, Without;
  }

  /** A released file is closed for good. */
  lemma {:induction false} ClosedForEver(ws: seq<World>, ls: seq<Label>, i: nat, j: nat, f: FileId)
    requires IsRun(ws, ls) && i < |ls| && ls[i] == EndRelease(f) && i < j < |ws|
    ensures f in ws[j].used && f !in ws[j].drv.target
    decreases j
  {
    hide Inv, Step;
    InvHolds(ws, ls, j - 1);
    var l := ls[j - 1];
    if j == i + 1 {
      ClosesAt(ws[i], f, ws[j]);
    } else {
      ClosedForEver(ws, ls, i, j - 1, f);
      ClosedStep(ws[j - 1], l, ws[j], f);
    }
  }
}
