/**
 The slot table as the driver changes it in place, with its search, list and BAR loops. Each method is proved
 to compute the function of HotplugSpec.dfy that describes it.
 */
module HotplugObject {
  import opened RegisterWords
  import opened HotplugSpec

  /** The list loop of release. */
  method Unlink(files: seq<FileId>, f: FileId) returns (kept: seq<FileId>)
    ensures kept == Without(files, f)
  {
    kept := [];
    var i := 0;
    while i < |files|
      invariant 0 <= i <= |files|
      invariant kept + Without(files[i..], f) == Without(files, f)
    {
      if files[i] != f {
        kept := kept + [files[i]];
      }
      i := i + 1;
    }
  }

  lemma BoundAlready(d: Driver, k: nat, b: Board)
    requires Shaped(d) && k < PCIEDEV_NR_DEVS && BoardOk(b) && Succeeds(b)
    ensures Probe(SetSlot(d, k, d.slots[k].(bound := true)), k, b) == Probe(d, k, b)
  {
    hide ProbedBars, ProbedEntry;
    assert Probe(SetSlot(d, k, d.slots[k].(bound := true)), k, b).0.slots == Probe(d, k, b).0.slots;
  }

  class SlotTable {
    const slots: array<Slot>
    const table: array<Entry>
    var target: map<FileId, nat>
    var modules: int

    ghost function Snapshot(): Driver
      reads this, slots, table
    {
      Driver(slots[..], target, modules, table[..])
    }

    ghost predicate Valid()
      reads this, slots, table
    {
      Shaped(Snapshot())
    }

    /** `upciedev_init_module_exp` */
    constructor ()
      ensures Valid() && Snapshot() == Initial() && fresh(slots) && fresh(table)
    {
      slots := new Slot[PCIEDEV_NR_DEVS + 1](_ => Slot(false, false, 0, [], 0, seq(BARS, _ => NO_BAR), Settings(false, RW_D8, 0, 0)));
      table := new Entry[NUMBER_OF_SLOTS](_ => EmptyEntry());
      target := map[];
      modules := 0;
      new;
      var i := 0;
      while i <= PCIEDEV_NR_DEVS
        invariant 0 <= i <= PCIEDEV_NR_DEVS + 1
        invariant forall k: nat :: k < i ==> slots[k] == FreshSlot(k)
        invariant forall k :: i <= k <= PCIEDEV_NR_DEVS ==>
          slots[k].bars == seq(BARS, _ => NO_BAR) && slots[k].settings == Settings(false, RW_D8, 0, 0)
        invariant table[..] == Initial().table && target == map[] && modules == 0
        modifies slots
      {
        slots[i] := slots[i].(bound := false, active := false, ref := 0, files := [], physSlot := 0);
        if i == PCIEDEV_NR_DEVS {
          slots[i] := slots[i].(bound := true);
        }
        i := i + 1;
      }
      assert slots[..] == Initial().slots;
    }

    /** `pciedev_open_exp` */
    method Open(f: FileId, k: nat)
      requires Valid() && k < slots.Length
      modifies this, slots
      ensures Valid() && Snapshot() == HotplugSpec.Open(old(Snapshot()), f, k)
    {
      slots[k] := slots[k].(ref := slots[k].ref + 1);
      target := target[f := k];
      slots[k] := slots[k].(files := [f] + slots[k].files);
      assert slots[..] == HotplugSpec.Open(old(Snapshot()), f, k).slots;
    }

    /** The head of `pciedev_release_exp`, before the lock is taken. */
    method DeviceOf(f: FileId) returns (k: nat)
      requires Valid() && f in target
      ensures k < slots.Length && target[f] == k
    {
      k := target[f];
    }

    /** The locked part of `pciedev_release_exp` on device k. */
    method Release(f: FileId, k: nat)
      requires Valid() && k < slots.Length
      modifies this, slots
      ensures Valid() && Snapshot() == HotplugSpec.Release(old(Snapshot()), f, k)
    {
      hide Without;
      slots[k] := slots[k].(ref := slots[k].ref - 1);
      var kept := Unlink(slots[k].files, f);
      slots[k] := slots[k].(files := kept);
      target := target - {f};
      assert slots[..] == HotplugSpec.Release(old(Snapshot()), f, k).slots;
    }

    /** The search loop of probe. */
    method FindFree() returns (k: nat)
      requires Valid()
      ensures k == FirstFree(slots[..], 0)
    {
      k := 0;
      while k <= PCIEDEV_NR_DEVS && slots[k].bound
        invariant k <= PCIEDEV_NR_DEVS + 1
        invariant FirstFree(slots[..], 0) == FirstFree(slots[..], k)
      {
        k := k + 1;
      }
    }

    /** The BAR loop of probe. */
    method SetUpBars(k: nat, b: Board)
      requires Valid() && k < slots.Length && BoardOk(b)
      modifies slots, table
      ensures Valid()
      ensures var p := b.physSlot;
        && slots[..] == old(slots[..])[k := old(slots[k]).(bars := ProbedBars(b))]
        && table[..] == old(table[..])[p := old(table[p]).(bars := ProbedRanges(old(table[p]).bars, b))]
    {
      var p := b.physSlot;
      var bars, ranges := slots[k].bars, table[p].bars;
      ghost var prev := ranges;
      var i := 0;
      while i < BARS
        invariant 0 <= i <= BARS && |bars| == BARS && |ranges| == BARS
        invariant forall j :: 0 <= j < i ==> bars[j] == ProbedBars(b)[j] && ranges[j] == ProbedRanges(prev, b)[j]
        invariant forall j :: i <= j < BARS ==> ranges[j] == prev[j]
      {
        var res := b.res[i];
        if res.start != 0 {
          bars := bars[i := BarInfo(res, b.iomap[i])];
          ranges := ranges[i := res];
        } else {
          bars := bars[i := BarInfo(res, false)];
        }
        i := i + 1;
      }
      assert bars == ProbedBars(b) && ranges == ProbedRanges(prev, b);
      slots[k] := slots[k].(bars := bars);
      table[p] := table[p].(bars := ranges);
    }

    /** `pciedev_probe_exp`, called with a free slot left. */
    method Probe(b: Board) returns (ret: int)
      requires Valid() && BoardOk(b) && FirstFree(slots[..], 0) < PCIEDEV_NR_DEVS
      modifies this, slots, table
      ensures Valid()
      ensures (Snapshot(), ret) == HotplugSpec.Probe(old(Snapshot()), FirstFree(old(slots[..]), 0), b)
    {
      hide ProbedBars, ProbedEntry;
      var k := FindFree();
      slots[k] := slots[k].(bound := true);
      assert slots[..] == old(slots[..])[k := old(slots[k]).(bound := true)];
      if b.enable != 0 {
        return b.enable;
      }
      if b.regions != 0 {
        slots[k] := slots[k].(bound := false);
        assert slots[..] == old(slots[..])[k := old(slots[k]).(bound := false)];
        return b.regions;
      }
      Configure(k, b);
      ret := 0;
      BoundAlready(old(Snapshot()), k, b);
    }

    /** Probe from the accepted board on. */
    method Configure(k: nat, b: Board)
      requires Valid() && k < PCIEDEV_NR_DEVS && BoardOk(b) && Succeeds(b) && slots[k].bound
      modifies this, slots, table
      ensures Valid() && Snapshot() == HotplugSpec.Probe(old(Snapshot()), k, b).0
    {
      hide ProbedBars, ProbedRanges;
      var p := b.physSlot;
      slots[k] := slots[k].(settings := slots[k].settings.(swap := false));
      slots[k] := slots[k].(physSlot := p);
      slots[k] := slots[k].(settings := slots[k].settings.(scratchBar := 0, scratchOffset := 0));
      table[p] := table[p].(sts := true, slotNum := p, bus := b.bus, device := b.device);
      SetUpBars(k, b);
      slots[k] := slots[k].(active := true);
      slots[k] := slots[k].(settings := slots[k].settings.(size := RW_D32));
      modules := modules + 1;
      assert slots[..] == HotplugSpec.Probe(old(Snapshot()), k, b).0.slots;
      assert table[..] == HotplugSpec.Probe(old(Snapshot()), k, b).0.table;
    }

    /** `pciedev_remove_exp` for the board in slot k. */
    method Remove(k: nat)
      requires Valid() && k < PCIEDEV_NR_DEVS && slots[k].physSlot < NUMBER_OF_SLOTS
      modifies this, slots, table
      ensures Valid() && Snapshot() == HotplugSpec.Remove(old(Snapshot()), k)
    {
      hide MoveAll, ClearedBars, EmptyEntry;
      Unplug(k);
      MoveFiles(k);
    }

    /** Remove up to the files: address table, BARs, status, binding and module count. */
    method Unplug(k: nat)
      requires Valid() && k < PCIEDEV_NR_DEVS && slots[k].physSlot < NUMBER_OF_SLOTS
      modifies this, slots, table
      ensures Valid() && Snapshot() == Unplugged(old(Snapshot()), k)
    {
      hide ClearedBars, EmptyEntry;
      var p := slots[k].physSlot;
      ClearEntry(p);
      ClearBars(k);
      slots[k] := slots[k].(active := false, bound := false);
      modules := modules - 1;
      assert slots[..] == Unplugged(old(Snapshot()), k).slots;
    }

    /** The list loop of remove. */
    method MoveFiles(k: nat)
      requires Valid() && k < PCIEDEV_NR_DEVS
      modifies this, slots
      ensures Valid() && Snapshot() == MoveAll(old(Snapshot()), k)
    {
      while slots[k].files != []
        invariant Valid() && MoveAll(Snapshot(), k) == MoveAll(old(Snapshot()), k)
        decreases |slots[k].files|
      {
        MoveFile(k);
      }
    }

    /** The first listed file goes to the null device. */
    method MoveFile(k: nat)
      requires Valid() && k < PCIEDEV_NR_DEVS && slots[k].files != []
      modifies this, slots
      ensures Valid() && Snapshot() == MoveOne(old(Snapshot()), k)
    {
      var f := slots[k].files[0];
      target := target[f := PCIEDEV_NR_DEVS];
      slots[k] := slots[k].(files := slots[k].files[1..]);
      slots[PCIEDEV_NR_DEVS] := slots[PCIEDEV_NR_DEVS].(ref := slots[PCIEDEV_NR_DEVS].ref + 1);
      assert slots[..] == MoveOne(old(Snapshot()), k).slots;
    }

    method ClearEntry(p: nat)
      requires Valid() && p < NUMBER_OF_SLOTS
      modifies table
      ensures Valid() && table[..] == old(table[..])[p := EmptyEntry()]
    {
      var bars := table[p].bars;
      var d := 0;
      while d < BARS
        invariant 0 <= d <= BARS && |bars| == BARS
        invariant forall j :: 0 <= j < d ==> bars[j] == NO_RANGE
      {
        bars := bars[d := NO_RANGE];
        d := d + 1;
      }
      assert bars == NoRanges();
      table[p] := Entry(false, 0, 0, 0, bars);
    }

    method ClearBars(k: nat)
      requires Valid() && k < slots.Length
      modifies slots
      ensures Valid() && slots[..] == old(slots[..])[k := old(slots[k]).(bars := ClearedBars(old(slots[k]).bars))]
    {
      var bars := slots[k].bars;
      ghost var prev := bars;
      var i := 0;
      while i < BARS
        invariant 0 <= i <= BARS && |bars| == BARS
        invariant forall j :: 0 <= j < i ==> bars[j] == ClearedBars(prev)[j]
        invariant forall j :: i <= j < BARS ==> bars[j] == prev[j]
      {
        if bars[i].mapped {
          bars := bars[i := NO_BAR];
        }
        i := i + 1;
      }
      assert bars == ClearedBars(prev);
      slots[k] := slots[k].(bars := bars);
    }

    /** The first test of read, write and ioctl. */
    method Enter(f: FileId, call: Call) returns (err: int)
      requires Valid() && f in target
      ensures err == Gate(Snapshot(), f, call)
    {
      if !slots[target[f]].active {
        return if call.ReadCall? then -ENODEV else -EFAULT;
      }
      return 0;
    }
  }
}
