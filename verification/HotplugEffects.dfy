/**
 What probe and remove leave behind, field by field, and exactly which slots a run loses.
 */
module HotplugEffects {
  import opened HotplugSpec
  import opened HotplugRuns
  import opened HotplugSteps
  import opened HotplugTheorems
  import opened HotplugCalls

  // ----- open and release -----

  /** Open counts the file, points it to the slot and puts it at the head of the list. */
  lemma OpenEffect(d: Driver, f: FileId, k: nat)
    requires Shaped(d) && k < |d.slots| && f !in d.target
    ensures var d' := Open(d, f, k);
      && |d'.slots| == |d.slots| && d'.slots[k].ref == d.slots[k].ref + 1 && d'.slots[k].files == [f] + d.slots[k].files
      && d'.target == d.target[f := k] && d'.modules == d.modules && d'.table == d.table
      && (forall m :: 0 <= m < |d.slots| && m != k ==> d'.slots[m] == d.slots[m])
  {
  }

  /** Taking a file out of a list of distinct files leaves the others in their order. */
  lemma {:induction false} WithoutIs(files: seq<FileId>, i: nat)
    requires Distinct(files) && i < |files|
    ensures Without(files, files[i]) == files[..i] + files[i + 1..]
    decreases |files|
  {
    var f := files[i];
    var rest := files[1..];
    if i == 0 {
      WithoutNone(rest, f);
    } else {
      assert rest[i - 1] == f;
      WithoutIs(rest, i - 1);
      assert files[..i] + files[i + 1..] == [files[0]] + (rest[..i - 1] + rest[i..]);
    }
  }

  lemma {:induction false} WithoutNone(files: seq<FileId>, f: FileId)
    requires f !in files
    ensures Without(files, f) == files
  {
    if files != [] {
      WithoutNone(files[1..], f);
    }
  }

  /** Release takes one count off the device and the file off its list, and closes the file. */
  lemma ReleaseEffect(d: Driver, f: FileId, k: nat)
    requires Shaped(d) && k < |d.slots| && f in d.target
    ensures var d' := Release(d, f, k);
      && |d'.slots| == |d.slots| && d'.slots[k].ref == d.slots[k].ref - 1 && f !in d'.slots[k].files
      && (f !in d.slots[k].files ==> d'.slots[k].files == d.slots[k].files)
      && f !in d'.target && (forall g :: g != f ==> (g in d'.target <==> g in d.target))
      && (forall g :: g in d'.target ==> d'.target[g] == d.target[g])
      && (forall m :: 0 <= m < |d.slots| && m != k ==> d'.slots[m] == d.slots[m])
  {
    if f !in d.slots[k].files {
      WithoutNone(d.slots[k].files, f);
    }
    hide Without;
  }

  // ----- probe -----

  /** The slot, BARs, settings and table entry of an accepted board. */
  ghost predicate SetUp(d: Driver, k: nat, b: Board, d': Driver)
    requires Shaped(d) && k < PCIEDEV_NR_DEVS && BoardOk(b)
  {
    && |d'.slots| == |d.slots| && |d'.table| == |d.table|
    && var s, s', e := d.slots[k], d'.slots[k], d'.table[b.physSlot];
    && s'.bound && s'.active && s'.physSlot == b.physSlot && s'.ref == s.ref && s'.files == s.files
    && !s'.settings.swap && s'.settings.size == 2 && s'.settings.scratchBar == 0 && s'.settings.scratchOffset == 0
    && |s'.bars| == 6 && (forall i :: 0 <= i < 6 ==> s'.bars[i].range == b.res[i])
    && (forall i :: 0 <= i < 6 ==> s'.bars[i].mapped == (b.res[i].start != 0 && b.iomap[i]))
    && e.sts && e.slotNum == b.physSlot && e.bus == b.bus && e.device == b.device && |e.bars| == 6
    && (forall i :: 0 <= i < 6 ==> e.bars[i] == if b.res[i].start != 0 then b.res[i] else d.table[b.physSlot].bars[i])
    && d'.modules == d.modules + 1 && d'.target == d.target
    && (forall m :: 0 <= m < |d.slots| && m != k ==> d'.slots[m] == d.slots[m])
    && (forall p :: 0 <= p < |d.table| && p != b.physSlot ==> d'.table[p] == d.table[p])
  }

  /**
   Probe into a free slot: a board that cannot be enabled leaves the slot bound and nothing else changed; one whose regions
   are refused leaves the driver as it was; any other is set up. The result is the kernel's code.
   */
  lemma ProbeEffect(d: Driver, k: nat, b: Board)
    requires Shaped(d) && k < PCIEDEV_NR_DEVS && BoardOk(b) && !d.slots[k].bound
    ensures var (d', ret) := Probe(d, k, b);
      if b.enable != 0 then ret == b.enable && d' == d.(slots := d.slots[k := d.slots[k].(bound := true)])
      else if b.regions != 0 then ret == b.regions && d' == d
      else ret == 0 && SetUp(d, k, b, d')
  {
    if b.enable == 0 && b.regions != 0 {
      assert d.slots[k := d.slots[k].(bound := false)] == d.slots;
    }
  }

  /** In a run, a refused region request changes nothing, and the next search finds the same slot. */
  lemma RefusedRegions(ws: seq<World>, ls: seq<Label>, i: nat)
    requires IsRun(ws, ls) && i < |ls| && ls[i].ProbeBoard? && ls[i].info.enable == 0 && ls[i].info.regions != 0
    ensures ws[i + 1] == ws[i] && Shaped(ws[i].drv) && FirstFree(ws[i + 1].drv.slots, 0) == ls[i].slot
  {
    var l := ls[i];
    assert Step(ws[i], l, ws[i + 1]);
    hide IsRun;
    ProbeEffect(ws[i].drv, l.slot, l.info);
    hide SetUp;
  }

  // ----- remove -----

  /** Slot k is free again, its mapped BARs are cleared, and its address table entry is zero. */
  ghost predicate TornDown(d: Driver, k: nat, d': Driver)
    requires Shaped(d) && k < PCIEDEV_NR_DEVS && d.slots[k].physSlot < NUMBER_OF_SLOTS
  {
    && |d'.slots| == |d.slots| && |d'.table| == |d.table|
    && var s, s' := d.slots[k], d'.slots[k];
    && !s'.bound && !s'.active && s'.physSlot == s.physSlot && s'.settings == s.settings && |s'.bars| == 6
    && (forall i :: 0 <= i < 6 && s.bars[i].mapped ==> s'.bars[i] == BarInfo(Range(0, 0, 0), false))
    && (forall i :: 0 <= i < 6 && !s.bars[i].mapped ==> s'.bars[i] == s.bars[i])
    && ZeroEntry(d'.table[s.physSlot]) && d'.modules == d.modules - 1
    && (forall p :: 0 <= p < |d.table| && p != s.physSlot ==> d'.table[p] == d.table[p])
  }

  /** The files of slot k are at the null device, which counts them; slot k keeps its own count. */
  ghost predicate FilesMoved(d: Driver, k: nat, d': Driver)
    requires Shaped(d) && k < PCIEDEV_NR_DEVS
  {
    && |d'.slots| == |d.slots|
    && d'.slots[k].files == [] && d'.slots[k].ref == d.slots[k].ref
    && d'.slots[PCIEDEV_NR_DEVS] == d.slots[PCIEDEV_NR_DEVS].(ref := d.slots[PCIEDEV_NR_DEVS].ref + |d.slots[k].files|)
    && (forall m :: 0 <= m < PCIEDEV_NR_DEVS && m != k ==> d'.slots[m] == d.slots[m])
    && (forall f :: f in d.slots[k].files ==> f in d'.target && d'.target[f] == PCIEDEV_NR_DEVS)
    && (forall f :: f !in d.slots[k].files ==> (f in d'.target <==> f in d.target))
    && (forall f :: f !in d.slots[k].files && f in d.target ==> d'.target[f] == d.target[f])
  }

  lemma {:induction false} MoveAllMoves(d: Driver, k: nat)
    requires Shaped(d) && k < PCIEDEV_NR_DEVS
    ensures FilesMoved(d, k, MoveAll(d, k)) && MoveAll(d, k).slots[k] == d.slots[k].(files := [])
    decreases |d.slots[k].files|
  {
    if d.slots[k].files != [] {
      hide FilesMoved;
      MoveAllMoves(MoveOne(d, k), k);
      OneMoreMoved(d, k, MoveAll(d, k));
    } else {
      assert d.slots[PCIEDEV_NR_DEVS].(ref := d.slots[PCIEDEV_NR_DEVS].ref + 0) == d.slots[PCIEDEV_NR_DEVS];
    }
  }

  lemma OneMoreMoved(d: Driver, k: nat, d': Driver)
    requires Shaped(d) && k < PCIEDEV_NR_DEVS && d.slots[k].files != []
    requires Shaped(MoveOne(d, k)) && FilesMoved(MoveOne(d, k), k, d')
    ensures FilesMoved(d, k, d')
  {
    var d1 := MoveOne(d, k);
    var files := d.slots[k].files;
    assert files == [files[0]] + files[1..];
    assert d1.slots[k].files == files[1..] && d1.target == d.target[files[0] := PCIEDEV_NR_DEVS];
    assert d1.slots[PCIEDEV_NR_DEVS] == d.slots[PCIEDEV_NR_DEVS].(ref := d.slots[PCIEDEV_NR_DEVS].ref + 1);
    assert forall f :: f in files <==> f == files[0] || f in files[1..];
    assert forall m :: 0 <= m < PCIEDEV_NR_DEVS && m != k ==> d1.slots[m] == d.slots[m];
    hide MoveOne;
  }

  /** What remove does, field by field. */
  lemma RemoveEffect(d: Driver, k: nat)
    requires Shaped(d) && k < PCIEDEV_NR_DEVS && d.slots[k].physSlot < NUMBER_OF_SLOTS
    ensures TornDown(d, k, Remove(d, k)) && FilesMoved(d, k, Remove(d, k))
  {
    var d1 := Unplugged(d, k);
    assert TornDown(d, k, d1);
    assert d1.target == d.target && d1.slots[k].files == d.slots[k].files && d1.slots[k].ref == d.slots[k].ref;
    assert forall m :: 0 <= m < |d.slots| && m != k ==> d1.slots[m] == d.slots[m];
    UnplugFiles(d, k);
    hide MoveAll, Unplugged, ZeroEntry;
    MoveAllMoves(d1, k);
    MoveAllStatus(d1, k);
  }

  // ----- lost slots -----

  /** Some board that could not be enabled was probed into slot k before step j. */
  ghost predicate FailedEnable(ls: seq<Label>, k: nat, j: nat) {
    exists i :: 0 <= i < j <= |ls| && ls[i].ProbeBoard? && ls[i].slot == k && ls[i].info.enable != 0
  }

  lemma BoundStep(w: World, l: Label, w': World, k: nat)
    requires Inv(w) && Step(w, l, w') && k < PCIEDEV_NR_DEVS && !Leaked(w, k)
    requires !(l.ProbeBoard? && l.slot == k && l.info.enable != 0)
    ensures !Leaked(w', k)
  {
    InvShape(w);
    BoundIfActive(w, k);
    hide Inv, MoveAll, Without, Remove, Probe, SetUp, FilesMoved;
    match l
    case RemoveBoard(m) => RemovedBound(w, m, k);
    case ProbeBoard(m, b) => ProbedBound(w, m, b, k);
    case _ =>
  }

  lemma RemovedBound(w: World, m: nat, k: nat)
    requires WorldShaped(w) && m < PCIEDEV_NR_DEVS && k < PCIEDEV_NR_DEVS && w.drv.slots[m].physSlot < NUMBER_OF_SLOTS
    ensures var s := Removed(w, m).drv.slots;
      && |s| == |w.drv.slots|
      && (k == m ==> !s[k].bound)
      && (k != m ==> s[k] == w.drv.slots[k])
  {
    hide Remove;
    RemoveEffect(w.drv, m);
  }

  lemma ProbedBound(w: World, m: nat, b: Board, k: nat)
    requires WorldShaped(w) && m < PCIEDEV_NR_DEVS && k < PCIEDEV_NR_DEVS && BoardOk(b) && !w.drv.slots[m].bound
    requires !(m == k && b.enable != 0)
    ensures var s := Probed(w, m, b).drv.slots;
      && |s| == |w.drv.slots|
      && (k != m ==> s[k] == w.drv.slots[k])
      && (k == m ==> (s[k].bound <==> Succeeds(b)) && (Succeeds(b) ==> s[k].active))
  {
    hide Probe;
    ProbeEffect(w.drv, m, b);
  }

  lemma {:induction false} NotLost(ws: seq<World>, ls: seq<Label>, j: nat, k: nat)
    requires IsRun(ws, ls) && j < |ws| && k < PCIEDEV_NR_DEVS && !FailedEnable(ls, k, j)
    ensures !Leaked(ws[j], k)
    decreases j
  {
    if j == 0 {
    } else {
      hide Inv, Step, Leaked;
      assert !FailedEnable(ls, k, j - 1);
      NotLost(ws, ls, j - 1, k);
      InvHolds(ws, ls, j - 1);
      var l := ls[j - 1];
      BoundStep(ws[j - 1], l, ws[j], k);
    }
  }

  /** A slot is bound without a board if and only if a board that could not be enabled was once probed into it. */
  lemma LostIff(ws: seq<World>, ls: seq<Label>, j: nat, k: nat)
    requires IsRun(ws, ls) && j < |ws| && k < PCIEDEV_NR_DEVS
    ensures Leaked(ws[j], k) <==> FailedEnable(ls, k, j)
  {
    hide Leaked, IsRun;
    if FailedEnable(ls, k, j) {
      var i :| 0 <= i < j <= |ls| && ls[i].ProbeBoard? && ls[i].slot == k && ls[i].info.enable != 0;
      LeakedForEver(ws, ls, i, j);
    } else {
      NotLost(ws, ls, j, k);
    }
  }
}
