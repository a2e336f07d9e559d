/**
 Every step of the driver keeps the invariants of HotplugRuns.dfy.
 */
module HotplugSteps {
  import opened HotplugSpec
  import opened HotplugRuns

  // ----- files -----

  lemma ListOpened(d: Driver, f: FileId, k: nat, m: nat)
    requires Shaped(d) && k < |d.slots| && m < |d.slots| && f !in d.target && ListOk(d, m)
    ensures Shaped(Open(d, f, k)) && ListOk(Open(d, f, k), m)
  {
  }

  lemma PointingMore(target: map<FileId, nat>, f: FileId, k: nat, n: nat)
    requires f !in target || target[f] != n
    ensures |Pointing(target[f := k], n)| == |Pointing(target, n)| + if k == n then 1 else 0
  {
    if k == n {
      assert Pointing(target[f := k], n) == Pointing(target, n) + {f};
    } else {
      assert Pointing(target[f := k], n) == Pointing(target, n);
    }
  }

  lemma PointingLess(target: map<FileId, nat>, f: FileId, n: nat)
    requires f in target
    ensures |Pointing(target - {f}, n)| == |Pointing(target, n)| - if target[f] == n then 1 else 0
  {
    if target[f] == n {
      assert Pointing(target - {f}, n) + {f} == Pointing(target, n);
    } else {
      assert Pointing(target - {f}, n) == Pointing(target, n);
    }
  }

  lemma ReleaseOpened(d: Driver, f: FileId, k: nat, g: FileId, m: nat)
    requires Shaped(d) && k < |d.slots| && f !in d.target && ReleaseOk(d, g, m)
    ensures Shaped(Open(d, f, k)) && ReleaseOk(Open(d, f, k), g, m)
  {
  }

  lemma FilesOpen(w: World, f: FileId, k: nat)
    requires FilesOk(w) && f !in w.used && k <= PCIEDEV_NR_DEVS
    ensures FilesOk(w.(drv := Open(w.drv, f, k), used := w.used + {f}))
  {
    hide ListOk, Pointing, ReleaseOk, Total;
    var d' := Open(w.drv, f, k);
    forall m: nat | m <= PCIEDEV_NR_DEVS ensures Shaped(d') && ListOk(d', m) {
      ListOpened(w.drv, f, k, m);
    }
    forall g | g in w.releasing ensures Shaped(d') && ReleaseOk(d', g, w.releasing[g]) {
      ReleaseOpened(w.drv, f, k, g, w.releasing[g]);
    }
    PointingMore(w.drv.target, f, k, PCIEDEV_NR_DEVS);
  }

  lemma FilesBegin(w: World, f: FileId)
    requires FilesOk(w) && f in w.drv.target && f !in w.releasing
    ensures FilesOk(w.(releasing := w.releasing[f := w.drv.target[f]]))
  {
    hide Pointing, Total;
    assert ListOk(w.drv, PCIEDEV_NR_DEVS);
  }

  predicate Distinct(files: seq<FileId>) {
    forall i, j :: 0 <= i < j < |files| ==> files[i] != files[j]
  }

  lemma {:induction false} WithoutDistinct(files: seq<FileId>, f: FileId)
    requires Distinct(files)
    ensures Distinct(Without(files, f))
    ensures |Without(files, f)| == |files| - if f in files then 1 else 0
  {
    if files != [] {
      WithoutDistinct(files[1..], f);
      if files[0] == f {
        assert f !in files[1..];
      } else {
        assert f in files <==> f in files[1..];
        var rest := Without(files[1..], f);
        assert files[0] !in rest;
      }
    }
  }

  lemma ListReleased(d: Driver, f: FileId, k: nat, m: nat)
    requires Shaped(d) && ReleaseOk(d, f, k) && m < |d.slots| && ListOk(d, m)
    ensures Shaped(Release(d, f, k)) && ListOk(Release(d, f, k), m)
    ensures m == k && m < PCIEDEV_NR_DEVS ==>
      |Release(d, f, k).slots[m].files| == |d.slots[m].files| - if d.target[f] == k then 1 else 0
  {
    WithoutDistinct(d.slots[m].files, f);
  }

  lemma {:induction false} TotalMore(s: seq<nat>, k: nat)
    requires k < |s|
    ensures Total(s[k := s[k] + 1]) == Total(s) + 1
    decreases |s|
  {
    if k == 0 {
      assert s[k := s[k] + 1][1..] == s[1..];
    } else {
      assert s[k := s[k] + 1][1..] == s[1..][k - 1 := s[k] + 1];
      TotalMore(s[1..], k - 1);
    }
  }

  lemma OthersReleased(d: Driver, f: FileId, k: nat, g: FileId, m: nat)
    requires Shaped(d) && ReleaseOk(d, f, k) && ReleaseOk(d, g, m) && g != f
    ensures Shaped(Release(d, f, k)) && ReleaseOk(Release(d, f, k), g, m)
  {
  }

  lemma ReleaseParts(w: World, f: FileId)
    requires FilesOk(w) && f in w.releasing
    ensures WorldShaped(w) && CountersOk(w) && ReleaseOk(w.drv, f, w.releasing[f]) && ListOk(w.drv, w.releasing[f])
  {
    hide ListOk, CountersOk;
    assert ReleaseOk(w.drv, f, w.releasing[f]);
  }

  /** A release that a remove overtook costs its old slot a count too many and leaves the null device one too high. */
  lemma CountersReleased(w: World, f: FileId)
    requires FilesOk(w) && f in w.releasing
    ensures WorldShaped(Released(w, f)) && CountersOk(Released(w, f))
  {
    hide ListOk, Pointing, Without, Total, FilesOk;
    ReleaseParts(w, f);
    var k := w.releasing[f];
    ListReleased(w.drv, f, k, k);
    PointingLess(w.drv.target, f, PCIEDEV_NR_DEVS);
    TotalMore(w.overtaken, k);
  }

  lemma FilesRelease(w: World, f: FileId)
    requires FilesOk(w) && f in w.releasing
    ensures FilesOk(Released(w, f))
  {
    hide ListOk, ReleaseOk, Pointing, Without, Total, CountersOk;
    var k := w.releasing[f];
    var d' := Release(w.drv, f, k);
    forall m: nat | m <= PCIEDEV_NR_DEVS ensures Shaped(d') && ListOk(d', m) {
      ListReleased(w.drv, f, k, m);
    }
    forall g | g in w.releasing && g != f ensures Shaped(d') && ReleaseOk(d', g, w.releasing[g]) {
      OthersReleased(w.drv, f, k, g, w.releasing[g]);
    }
    CountersReleased(w, f);
  }

  /** The part of the driver that the file invariant looks at. */
  ghost predicate SameFiles(d: Driver, d': Driver) {
    && d'.target == d.target && |d'.slots| == |d.slots|
    && forall k :: 0 <= k < |d.slots| ==> d'.slots[k].files == d.slots[k].files && d'.slots[k].ref == d.slots[k].ref
  }

  lemma FilesFrame(w: World, w': World)
    requires FilesOk(w) && WorldShaped(w') && SameFiles(w.drv, w'.drv)
    requires w'.moved == w.moved && w'.overtaken == w.overtaken && w'.used == w.used && w'.releasing == w.releasing
    ensures FilesOk(w')
  {
    hide Pointing, Total;
    forall m: nat | m <= PCIEDEV_NR_DEVS ensures ListOk(w'.drv, m) {
      assert ListOk(w.drv, m);
    }
    forall f | f in w'.releasing ensures ReleaseOk(w'.drv, f, w'.releasing[f]) {
      assert ReleaseOk(w.drv, f, w.releasing[f]);
    }
  }

  lemma ListMoved(d: Driver, k: nat, m: nat)
    requires Shaped(d) && k < PCIEDEV_NR_DEVS && d.slots[k].files != [] && m < |d.slots| && ListOk(d, m) && ListOk(d, k)
    ensures Shaped(MoveOne(d, k)) && ListOk(MoveOne(d, k), m)
  {
    var f := d.slots[k].files[0];
    assert f in d.slots[k].files;
    if m == k {
      var rest := d.slots[k].files[1..];
      assert f !in rest;
      assert forall g :: g in d.slots[k].files ==> g == f || g in rest;
    }
  }

  function MovedOne(w: World, k: nat): World
    requires WorldShaped(w) && k < PCIEDEV_NR_DEVS && w.drv.slots[k].files != []
  {
    w.(drv := MoveOne(w.drv, k), moved := w.moved[k := w.moved[k] + 1])
  }

  lemma ReleaseMoved(d: Driver, k: nat, g: FileId, m: nat)
    requires Shaped(d) && k < PCIEDEV_NR_DEVS && d.slots[k].files != [] && ListOk(d, k) && ReleaseOk(d, g, m)
    ensures Shaped(MoveOne(d, k)) && ReleaseOk(MoveOne(d, k), g, m)
  {
    assert d.slots[k].files[0] in d.slots[k].files;
  }

  lemma FilesMoveOne(w: World, k: nat)
    requires FilesOk(w) && k < PCIEDEV_NR_DEVS && w.drv.slots[k].files != []
    ensures FilesOk(MovedOne(w, k))
  {
    FirstListed(w.drv, k);
    hide ListOk, Pointing, Total, ReleaseOk;
    var d' := MoveOne(w.drv, k);
    var f := w.drv.slots[k].files[0];
    forall m: nat | m <= PCIEDEV_NR_DEVS ensures Shaped(d') && ListOk(d', m) {
      ListMoved(w.drv, k, m);
    }
    forall g | g in w.releasing ensures Shaped(d') && ReleaseOk(d', g, w.releasing[g]) {
      ReleaseMoved(w.drv, k, g, w.releasing[g]);
    }
    PointingMore(w.drv.target, f, PCIEDEV_NR_DEVS, PCIEDEV_NR_DEVS);
  }

  lemma FirstListed(d: Driver, k: nat)
    requires Shaped(d) && k < |d.slots| && ListOk(d, k) && d.slots[k].files != []
    ensures d.slots[k].files[0] in d.target && d.target[d.slots[k].files[0]] == k
  {
    assert d.slots[k].files[0] in d.slots[k].files;
  }

  /** Remove moves every listed file, and only those, to the null device. */
  lemma {:induction false} FilesMoveAll(w: World, k: nat)
    requires WorldShaped(w) && FilesOk(w) && k < PCIEDEV_NR_DEVS
    ensures FilesOk(w.(drv := MoveAll(w.drv, k), moved := w.moved[k := w.moved[k] + |w.drv.slots[k].files|]))
    decreases |w.drv.slots[k].files|
  {
    hide FilesOk;
    if w.drv.slots[k].files == [] {
      assert w.moved[k := w.moved[k] + 0] == w.moved;
    } else {
      FilesMoveOne(w, k);
      var w1 := MovedOne(w, k);
      FilesMoveAll(w1, k);
      assert w1.moved[k := w1.moved[k] + |w1.drv.slots[k].files|] == w.moved[k := w.moved[k] + |w.drv.slots[k].files|];
    }
  }

  // ----- slots and the address table -----

  /** The part of the driver that the slot and table invariants look at. */
  ghost predicate SameStatus(d: Driver, d': Driver) {
    && |d'.slots| == |d.slots| && d'.modules == d.modules && d'.table == d.table
    && forall k :: 0 <= k < |d.slots| ==>
         && d'.slots[k].bound == d.slots[k].bound && d'.slots[k].active == d.slots[k].active
         && d'.slots[k].physSlot == d.slots[k].physSlot && d'.slots[k].bars == d.slots[k].bars
  }

  lemma {:induction false} CountSame(slots: seq<Slot>, slots': seq<Slot>)
    requires |slots'| == |slots| && forall k :: 0 <= k < |slots| ==> slots'[k].active == slots[k].active
    ensures CountActive(slots') == CountActive(slots)
    decreases |slots|
  {
    if slots != [] {
      CountSame(slots[1..], slots'[1..]);
    }
  }

  lemma {:induction false} CountChange(slots: seq<Slot>, k: nat, s: Slot)
    requires k < |slots|
    ensures CountActive(slots[k := s]) ==
            CountActive(slots) + (if s.active then 1 else 0) - (if slots[k].active then 1 else 0)
    decreases |slots|
  {
    if k == 0 {
      assert slots[k := s][1..] == slots[1..];
    } else {
      assert slots[k := s][1..] == slots[1..][k - 1 := s];
      CountChange(slots[1..], k - 1, s);
    }
  }

  lemma StatusFrame(d: Driver, d': Driver)
    requires SlotsOk(d) && TableOk(d) && Shaped(d') && SameStatus(d, d')
    ensures SlotsOk(d') && TableOk(d')
  {
    hide CountActive, Shows, EmptyEntry;
    CountSame(d.slots, d'.slots);
    forall p: nat | p < NUMBER_OF_SLOTS && PhysFree(d', p) ensures d'.table[p] == EmptyEntry() {
      assert PhysFree(d, p);
    }
    forall k | 0 <= k < |d'.slots| && d'.slots[k].active
      ensures d'.slots[k].physSlot < NUMBER_OF_SLOTS && Shows(d'.table[d'.slots[k].physSlot], d'.slots[k])
    {
      SameShows(d.table[d.slots[k].physSlot], d.slots[k], d'.slots[k]);
    }
  }

  lemma SameShows(e: Entry, s: Slot, s': Slot)
    requires Shows(e, s) && s'.physSlot == s.physSlot && s'.bars == s.bars
    ensures Shows(e, s')
  {
  }

  lemma {:induction false} MoveAllStatus(d: Driver, k: nat)
    requires Shaped(d) && k < PCIEDEV_NR_DEVS
    ensures SameStatus(d, MoveAll(d, k)) && MoveAll(d, k).slots[k].files == []
    decreases |d.slots[k].files|
  {
    if d.slots[k].files != [] {
      MoveAllStatus(MoveOne(d, k), k);
    }
  }

  lemma ProbeShape(d: Driver, k: nat, b: Board)
    requires Shaped(d) && k < PCIEDEV_NR_DEVS && BoardOk(b)
    ensures Shaped(Probe(d, k, b).0)
    ensures !Succeeds(b) ==> Probe(d, k, b).0.slots[k].bars == d.slots[k].bars
  {
  }

  lemma SlotsProbe(d: Driver, k: nat, b: Board)
    requires SlotsOk(d) && k < PCIEDEV_NR_DEVS && BoardOk(b) && !d.slots[k].bound
    ensures SlotsOk(Probe(d, k, b).0)
  {
    hide CountActive, ProbedEntry, ProbedBars;
    var d' := Probe(d, k, b).0;
    ProbeShape(d, k, b);
    CountChange(d.slots, k, d'.slots[k]);
  }

  lemma SlotsUnplug(d: Driver, k: nat)
    requires SlotsOk(d) && k < PCIEDEV_NR_DEVS && d.slots[k].active && d.slots[k].physSlot < NUMBER_OF_SLOTS
    ensures SlotsOk(Unplugged(d, k))
  {
    hide CountActive, EmptyEntry;
    EmptyShape();
    CountChange(d.slots, k, Unplugged(d, k).slots[k]);
  }

  lemma ProbedShows(b: Board, ref: int, files: seq<FileId>)
    requires BoardOk(b)
    ensures Shows(ProbedEntry(EmptyEntry(), b), Slot(true, true, ref, files, b.physSlot, ProbedBars(b), PROBED))
  {
  }

  lemma TableFailed(d: Driver, k: nat, bound: bool)
    requires TableOk(d) && k < PCIEDEV_NR_DEVS
    ensures TableOk(SetSlot(d, k, d.slots[k].(bound := bound)))
  {
    hide Shows, EmptyEntry;
    var d' := SetSlot(d, k, d.slots[k].(bound := bound));
    forall p: nat | p < NUMBER_OF_SLOTS && PhysFree(d', p) ensures d'.table[p] == EmptyEntry() {
      assert PhysFree(d, p) by {
        forall m | 0 <= m < |d.slots| && d.slots[m].active ensures d.slots[m].physSlot != p {
          assert d'.slots[m].active;
        }
      }
    }
    forall m | 0 <= m < |d'.slots| && d'.slots[m].active
      ensures d'.slots[m].physSlot < NUMBER_OF_SLOTS && Shows(d'.table[d'.slots[m].physSlot], d'.slots[m])
    {
      SameShows(d.table[d.slots[m].physSlot], d.slots[m], d'.slots[m]);
    }
  }

  lemma TableProbed(d: Driver, k: nat, b: Board)
    requires TableOk(d) && k < PCIEDEV_NR_DEVS && BoardOk(b) && !d.slots[k].active && PhysFree(d, b.physSlot)
    requires b.enable == 0 && b.regions == 0
    ensures TableOk(Probe(d, k, b).0)
  {
    hide Shows, EmptyEntry, ProbedEntry, ProbedBars;
    var d' := Probe(d, k, b).0;
    ProbedShows(b, d.slots[k].ref, d.slots[k].files);
    forall p: nat | p < NUMBER_OF_SLOTS && PhysFree(d', p) ensures d'.table[p] == EmptyEntry() {
      assert d'.slots[k].active && p != b.physSlot;
      assert PhysFree(d, p) by {
        forall m | 0 <= m < |d.slots| && d.slots[m].active ensures d.slots[m].physSlot != p {
          assert d'.slots[m].active;
        }
      }
    }
  }

  lemma TableUnplug(d: Driver, k: nat)
    requires TableOk(d) && k < PCIEDEV_NR_DEVS && d.slots[k].active
    ensures TableOk(Unplugged(d, k))
  {
    hide Shows, EmptyEntry, ClearedBars;
    EmptyShape();
    var d' := Unplugged(d, k);
    forall p: nat | p < NUMBER_OF_SLOTS && PhysFree(d', p) ensures d'.table[p] == EmptyEntry() {
      if p != d.slots[k].physSlot {
        assert PhysFree(d, p) by {
          forall m | 0 <= m < |d.slots| && d.slots[m].active ensures d.slots[m].physSlot != p {
            assert m != k ==> d'.slots[m].active;
          }
        }
      }
    }
  }

  lemma EmptyShape()
    ensures |EmptyEntry().bars| == BARS
  {
  }
}
