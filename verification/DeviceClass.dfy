/**
 * Module load and unload: count the matching devices, take a reference on
 * each, create one control device for each, and unwind when a step fails.
 */
module DeviceClass {
  import opened Kernel
  import opened Enumeration

  /** The kernel the module loads into. */
  class Machine {
    const slots: Slots
    var refs: seq<int>       // use count of each device
    var tableLocked: bool    // mtd_table_mutex
    var live: nat            // allocations not yet freed
    var budget: nat          // allocations that still succeed

    constructor (slots: Slots, refs: seq<int>, budget: nat)
      ensures this.slots == slots && this.refs == refs && this.budget == budget
      ensures !tableLocked && live == 0
    {
      this.slots, this.refs, this.budget := slots, refs, budget;
      tableLocked, live := false, 0;
    }

    method Kvzalloc() returns (ok: bool)
      modifies this`live, this`budget
      ensures ok == (old(budget) > 0)
      ensures budget == (if ok then old(budget) - 1 else 0)
      ensures live == if ok then old(live) + 1 else old(live)
    {
      ok := budget > 0;
      if ok {
        budget, live := budget - 1, live + 1;
      }
    }

    method Kvfree()
      requires live > 0
      modifies this`live
      ensures live == old(live) - 1
    {
      live := live - 1;
    }

    /** alloc_array_with_items: an array of `count` items, or nothing at all. */
    method AllocArray(count: nat) returns (ok: bool)
      modifies this`live, this`budget
      ensures ok == (old(budget) > count)
      ensures budget == (if ok then old(budget) - count - 1 else 0)
      ensures live == if ok then old(live) + count + 1 else old(live)
    {
      ok := Kvzalloc();
      if !ok {
        return;
      }
      var idx := 0;
      while idx < count
        invariant 0 <= idx <= count && ok
        invariant live == old(live) + 1 + idx && budget == old(budget) - 1 - idx
      {
        ok := Kvzalloc();
        if !ok {
          FreeArray(idx);
          return;
        }
        idx := idx + 1;
      }
    }

    /** free_array_with_items */
    method FreeArray(count: nat)
      requires live > count
      modifies this`live
      ensures live == old(live) - count - 1
    {
      var idx := 0;
      while idx < count
        invariant 0 <= idx <= count && live == old(live) - idx
      {
        Kvfree();
        idx := idx + 1;
      }
      Kvfree();
    }
  }

  /** How a call ends: it returns, waits for a lock it holds itself, or frees an array twice. */
  datatype Ending = Done(ret: int) | SelfDeadlock | DoubleFree

  /** A control device: its minor number and the device behind it. */
  datatype Dev = Dev(minor: nat, backing: nat)

  /** Which steps of a load fail, and with what. */
  datatype Failures = Failures(refuses: set<nat>,      // devices __get_mtd_device refuses
                               classCode: int,         // class_create
                               regionCode: int,        // alloc_chrdev_region
                               creations: nat,         // control devices created before one fails
                               createCode: int)        // that failure
  {
    predicate Codes() {
      classCode <= 0 && regionCode <= 0 && createCode < 0
    }
  }

  ghost predicate Granted(sel: seq<nat>, refuses: set<nat>) {
    forall k :: 0 <= k < |sel| ==> sel[k] !in refuses
  }

  /** The code a load that returns gives back: that of its first step to fail. */
  ghost function LoadCode(sel: seq<nat>, budget: nat, fail: Failures): int {
    if sel == [] then EINVAL
    else if budget <= |sel| + 1 then ENOMEM
    else if fail.classCode < 0 then fail.classCode
    else if fail.regionCode < 0 then fail.regionCode
    else if fail.creations < |sel| then fail.createCode
    else 0
  }

  lemma RefusedFirst(sel: seq<nat>, refuses: set<nat>, n: nat)
    requires n < |sel| && Granted(sel[..n], refuses) && sel[n] in refuses
    ensures !Granted(sel, refuses) && (n == 0 <==> sel[0] in refuses)
  {
    assert n > 0 ==> sel[..n][0] == sel[0];
  }

  /** How get_all_matching_mtd_devices ends, from the selection and what fails. */
  ghost function Acquiring(sel: seq<nat>, memory: bool, refuses: set<nat>): Ending {
    if sel == [] then Done(EINVAL)
    else if !memory then Done(ENOMEM)
    else if Granted(sel, refuses) then Done(0)
    else if sel[0] in refuses then DoubleFree
    else SelfDeadlock
  }

  class DevClass {
    const machine: Machine
    var mtdDevs: array<nat>
    var mtdDevsLive: bool
    var devs: array<Dev>
    var count: nat
    var mtdCount: nat
    var made: set<nat>       // control devices that exist, by index
    var classLive: bool
    var regionLive: bool

    constructor (m: Machine)
      ensures machine == m && count == 0 && Idle()
      ensures fresh(mtdDevs) && fresh(devs)
    {
      machine := m;
      mtdDevs, devs := new nat[0], new Dev[0];
      mtdDevsLive, count, mtdCount, made, classLive, regionLive := false, 0, 0, {}, false, false;
    }

    ghost predicate Idle()
      reads this
    {
      !mtdDevsLive && made == {} && !classLive && !regionLive
    }

    ghost function Sel(f: Filter): seq<nat> {
      Selection(machine.slots, f, |machine.slots|)
    }

    lemma SelInRange(f: Filter)
      ensures forall k :: 0 <= k < |Sel(f)| ==> Sel(f)[k] < |machine.slots|
    {
      SelectionInRange(machine.slots, f, Sel(f));
    }

    /** The count pass of the walk. */
    method CountPass(f: Filter)
      modifies this`count
      ensures count == old(count) + |Sel(f)|
    {
      var from := 0;
      var mtd := Next(machine.slots, from);
      while mtd.Some?
        invariant 0 <= from <= |machine.slots| && mtd == Next(machine.slots, from)
        invariant count == old(count) + |Selection(machine.slots, f, from)|
        decreases |machine.slots| - from
      {
        WalkStep(machine.slots, f, from, mtd.value);
        if Matches(f, machine.slots[mtd.value].value) {
          count := count + 1;
        }
        from := mtd.value + 1;
        mtd := Next(machine.slots, from);
      }
      WalkEnd(machine.slots, f, from);
    }

    /** The first n devices of `sel`, and no others, are recorded and hold one more reference than before. */
    ghost predicate Took(before: seq<int>, sel: seq<nat>, n: nat, refuses: set<nat>)
      reads this, mtdDevs, machine`refs
    {
      && mtdCount == n <= |sel| && n <= mtdDevs.Length
      && mtdDevs[..n] == sel[..n]
      && machine.refs == Shift(before, sel[..n], 1)
      && Granted(sel[..n], refuses)
    }

    /** get_mtd_device_ref: one reference, recorded at `idx`. */
    method GetRef(idx: nat, mtd: nat, refuses: set<nat>, ghost before: seq<int>, ghost sel: seq<nat>) returns (ok: bool)
      requires Took(before, sel, idx, refuses)
      requires idx < |sel| && idx < mtdDevs.Length && sel[idx] == mtd < |machine.refs|
      modifies this`mtdCount, mtdDevs, machine`refs
      ensures ok == (mtd !in refuses)
      ensures Took(before, sel, if ok then idx + 1 else idx, refuses)
    {
      if mtd in refuses {
        return false;
      }
      ShiftStep(before, sel, idx, 1);
      assert sel[..idx + 1] == sel[..idx] + [mtd];
      machine.refs := machine.refs[mtd := machine.refs[mtd] + 1];
      mtdDevs[idx] := mtd;
      mtdCount := mtdCount + 1;
      assert idx + 1 == mtdCount;
      return true;
    }

    /** The acquire pass has handled every device below `from`, and taken its reference if it is selected. */
    ghost predicate AcquiredBelow(f: Filter, before: seq<int>, from: nat, idx: nat, refuses: set<nat>)
      reads this, mtdDevs, machine`refs
    {
      && from <= |machine.slots| == |before| && mtdDevs.Length == |Sel(f)|
      && idx == |Selection(machine.slots, f, from)|
      && Took(before, Sel(f), idx, refuses)
    }

    /** One turn of the walk. */
    method Visit(f: Filter, from: nat, found: nat, idx: nat, refuses: set<nat>, ghost before: seq<int>)
      returns (ok: bool, idx': nat)
      requires AcquiredBelow(f, before, from, idx, refuses) && Next(machine.slots, from) == Some(found)
      modifies this`mtdCount, mtdDevs, machine`refs
      ensures ok ==> AcquiredBelow(f, before, found + 1, idx', refuses)
      ensures !ok ==> Took(before, Sel(f), mtdCount, refuses) && mtdCount < |Sel(f)| && Sel(f)[mtdCount] in refuses
    {
      ok, idx' := true, idx;
      WalkStep(machine.slots, f, from, found);
      if Matches(f, machine.slots[found].value) {
        ok := GetRef(idx, found, refuses, before, Sel(f));
        if ok {
          idx' := idx + 1;
        }
      }
    }

    /**
     * The acquire pass: the same walk under the same lock visits the devices
     * the count pass counted, so its writes stay inside an array of that size.
     * It stops at the first device that refuses a reference.
     */
    method AcquirePass(f: Filter, refuses: set<nat>) returns (ok: bool)
      requires mtdDevs.Length == |Sel(f)| && mtdCount == 0
      requires |machine.refs| == |machine.slots|
      modifies this`mtdCount, mtdDevs, machine`refs
      ensures Took(old(machine.refs), Sel(f), mtdCount, refuses)
      ensures ok ==> mtdCount == |Sel(f)|
      ensures !ok ==> mtdCount < |Sel(f)| && Sel(f)[mtdCount] in refuses
    {
      ghost var before := machine.refs;
      ShiftNone(before, Sel(f), 1);
      var from, idx := 0, 0;
      var mtd := Next(machine.slots, from);
      while mtd.Some?
        invariant mtd == Next(machine.slots, from) && AcquiredBelow(f, before, from, idx, refuses)
        decreases |machine.slots| - from
      {
        ok, idx := Visit(f, from, mtd.value, idx, refuses, before);
        if !ok {
          return;
        }
        from := mtd.value + 1;
        mtd := Next(machine.slots, from);
      }
      WalkEnd(machine.slots, f, from);
      return true;
    }

    /** put_all_mtd_devices: put_mtd_device takes the table lock for each put. */
    method PutAll() returns (end: Ending)
      requires mtdDevsLive && mtdCount <= mtdDevs.Length && machine.live > 0
      requires forall k :: 0 <= k < mtdCount ==> mtdDevs[k] < |machine.refs|
      modifies this`mtdDevsLive, machine`refs, machine`live
      ensures machine.tableLocked && mtdCount > 0 ==>
                end == SelfDeadlock && machine.refs == old(machine.refs) && mtdDevsLive
      ensures !(machine.tableLocked && mtdCount > 0) ==>
                end == Done(0) && !mtdDevsLive && machine.live == old(machine.live) - 1
                && machine.refs == Shift(old(machine.refs), mtdDevs[..mtdCount], -1)
    {
      ghost var ids := mtdDevs[..mtdCount];
      var idx := 0;
      while idx < mtdCount
        invariant 0 <= idx <= mtdCount && mtdDevsLive
        invariant idx > 0 ==> !machine.tableLocked
        invariant |machine.refs| == |old(machine.refs)| && machine.live == old(machine.live)
        invariant machine.refs == Shift(old(machine.refs), ids[..idx], -1)
      {
        if machine.tableLocked {
          return SelfDeadlock;
        }
        ShiftStep(old(machine.refs), ids, idx, -1);
        machine.refs := machine.refs[mtdDevs[idx] := machine.refs[mtdDevs[idx]] - 1];
        idx := idx + 1;
      }
      assert ids[..idx] == ids;
      mtdDevsLive := false;
      machine.Kvfree();
      return Done(0);
    }

    /** The label free_mtd_devs_array: put_all_mtd_devices frees the array, then it is freed again. */
    method FreeAcquired(ghost sel: seq<nat>) returns (end: Ending)
      requires machine.tableLocked && mtdDevsLive && mtdCount <= mtdDevs.Length && machine.live > 0
      requires mtdCount < |sel| && mtdDevs[..mtdCount] == sel[..mtdCount]
      requires forall k :: 0 <= k < |sel| ==> sel[k] < |machine.refs|
      modifies this`mtdDevsLive, machine`refs, machine`live
      ensures end == if mtdCount > 0 then SelfDeadlock else DoubleFree
      ensures machine.refs == old(machine.refs)
    {
      assert forall k :: 0 <= k < mtdCount ==> mtdDevs[k] == sel[..mtdCount][k] == sel[k];
      ShiftNone(machine.refs, mtdDevs[..mtdCount], -1);
      end := PutAll();
      if end.Done? && !mtdDevsLive {
        return DoubleFree;
      }
    }

    /**
     * get_all_matching_mtd_devices. It returns exactly when nothing had to be
     * rolled back; a refused reference ends in a self-deadlock on the table
     * lock, or, when nothing was taken yet, in freeing the array twice.
     */
    method GetAllMatching(f: Filter, refuses: set<nat>) returns (end: Ending)
      requires |machine.refs| == |machine.slots| && !machine.tableLocked && !mtdDevsLive
      modifies this`count, this`mtdCount, this`mtdDevs, this`mtdDevsLive,
               machine`refs, machine`tableLocked, machine`live, machine`budget
      ensures end == Acquiring(Sel(f), old(machine.budget) > 0, refuses)
      ensures machine.tableLocked == !end.Done?
      ensures end == Done(0) ==>
                && fresh(mtdDevs) && mtdDevsLive && mtdDevs[..] == Sel(f) && count == mtdCount == |Sel(f)|
                && machine.refs == Shift(old(machine.refs), Sel(f), 1)
                && machine.live == old(machine.live) + 1 && machine.budget == old(machine.budget) - 1
      ensures end.Done? && end.ret != 0 ==>
                machine.refs == old(machine.refs) && machine.live == old(machine.live) && !mtdDevsLive
      ensures end == SelfDeadlock ==>
                0 < mtdCount < |Sel(f)| && machine.refs == Shift(old(machine.refs), Sel(f)[..mtdCount], 1)
      ensures end == DoubleFree ==> mtdCount == 0 && machine.refs == old(machine.refs)
    {
      SelInRange(f);
      mtdCount, count := 0, 0;
      machine.tableLocked := true;
      CountPass(f);
      if count == 0 {
        machine.tableLocked := false;
        return Done(EINVAL);
      }
      var memory := machine.Kvzalloc();
      if !memory {
        machine.tableLocked := false;
        return Done(ENOMEM);
      }
      mtdDevs := new nat[count];
      mtdDevsLive := true;
      var ok := AcquirePass(f, refuses);
      assert Sel(f)[..|Sel(f)|] == Sel(f);
      if !ok {
        RefusedFirst(Sel(f), refuses, mtdCount);
        end := FreeAcquired(Sel(f));
        return;
      }
      assert mtdDevs[..] == mtdDevs[..mtdCount];
      machine.tableLocked := false;
      return Done(0);
    }

    /**
     * The acquisition as it is meant: on a refusal the table lock is dropped
     * before the puts, and the array is freed once. It always returns, and
     * every return but success leaves references and memory as they were.
     */
    method GetAllRepaired(f: Filter, refuses: set<nat>) returns (ret: int)
      requires |machine.refs| == |machine.slots| && !machine.tableLocked && !mtdDevsLive
      modifies this`count, this`mtdCount, this`mtdDevs, this`mtdDevsLive,
               machine`refs, machine`tableLocked, machine`live, machine`budget
      ensures !machine.tableLocked
      ensures ret == if Sel(f) == [] then EINVAL else if old(machine.budget) == 0 then ENOMEM
                     else if Granted(Sel(f), refuses) then 0 else ENODEV
      ensures ret == 0 ==>
                mtdDevsLive && mtdDevs[..] == Sel(f) && count == mtdCount == |Sel(f)|
                && machine.refs == Shift(old(machine.refs), Sel(f), 1) && machine.live == old(machine.live) + 1
      ensures ret != 0 ==>
                !mtdDevsLive && machine.refs == old(machine.refs) && machine.live == old(machine.live)
    {
      SelInRange(f);
      mtdCount, count := 0, 0;
      machine.tableLocked := true;
      CountPass(f);
      if count == 0 {
        machine.tableLocked := false;
        return EINVAL;
      }
      var memory := machine.Kvzalloc();
      if !memory {
        machine.tableLocked := false;
        return ENOMEM;
      }
      mtdDevs := new nat[count];
      mtdDevsLive := true;
      var ok := AcquirePass(f, refuses);
      machine.tableLocked := false;
      if !ok {
        RefusedFirst(Sel(f), refuses, mtdCount);
        ShiftBack(old(machine.refs), Sel(f)[..mtdCount]);
        assert forall k :: 0 <= k < mtdCount ==> mtdDevs[k] == Sel(f)[..mtdCount][k] == Sel(f)[k];
        var end := PutAll();
        return ENODEV;
      }
      assert Sel(f)[..|Sel(f)|] == Sel(f);
      assert mtdDevs[..] == mtdDevs[..mtdCount];
      return 0;
    }

    method RemoveDevices(maxIdx: nat)
      requires forall k: nat :: k in made <==> k < maxIdx
      modifies this`made
      ensures made == {}
    {
      var idx := 0;
      while idx < maxIdx
        invariant 0 <= idx <= maxIdx
        invariant forall k: nat :: k in made <==> idx <= k < maxIdx
      {
        made := made - {idx};
        idx := idx + 1;
      }
    }

    /** add_devices: device i gets minor i and the i-th acquired MTD; the first failure stops it. */
    method AddDevices(creations: nat, code: int) returns (ret: int, maxIdx: nat)
      requires made == {} && code < 0
      requires devs.Length == mtdDevs.Length == count
      modifies this`made, devs
      ensures maxIdx <= count && forall k: nat :: k in made <==> k < maxIdx
      ensures if creations < count then ret == code && maxIdx == creations else ret == 0 && maxIdx == count
      ensures forall k :: 0 <= k < maxIdx ==> devs[k] == Dev(k, mtdDevs[k])
    {
      maxIdx := 0;
      while maxIdx < count
        invariant 0 <= maxIdx <= count && maxIdx <= creations
        invariant forall k: nat :: k in made <==> k < maxIdx
        invariant forall k :: 0 <= k < maxIdx ==> devs[k] == Dev(k, mtdDevs[k])
      {
        devs[maxIdx] := Dev(maxIdx, mtdDevs[maxIdx]);
        if maxIdx == creations {
          return code, maxIdx;
        }
        made := made + {maxIdx};
        maxIdx := maxIdx + 1;
      }
      return 0, maxIdx;
    }

    /** device_class_create_devices: when a creation fails, the devices go and the region stays. */
    method CreateDevices(fail: Failures) returns (ret: int)
      requires made == {} && !regionLive && fail.Codes()
      requires devs.Length == mtdDevs.Length == count
      modifies this`made, this`regionLive, devs
      ensures ret == if fail.regionCode < 0 then fail.regionCode
                     else if fail.creations < count then fail.createCode else 0
      ensures regionLive <==> fail.regionCode == 0
      ensures if ret == 0
              then (forall k: nat :: k in made <==> k < count) && forall k :: 0 <= k < count ==> devs[k] == Dev(k, mtdDevs[k])
              else made == {}
    {
      if fail.regionCode < 0 {
        return fail.regionCode;
      }
      regionLive := true;
      var maxIdx;
      ret, maxIdx := AddDevices(fail.creations, fail.createCode);
      if ret != 0 {
        RemoveDevices(maxIdx);
      }
    }

    /** One reference is held on each device of `sel`, recorded in the array. */
    ghost predicate Acquired(sel: seq<nat>)
      reads this, mtdDevs, machine`refs
    {
      && mtdDevsLive && mtdDevs[..] == sel && count == mtdCount == |sel|
      && forall k :: 0 <= k < |sel| ==> sel[k] < |machine.refs|
    }

    /** put_all_mtd_devices with the table lock free, as every later failure and the unload call it. */
    method DropReferences(ghost sel: seq<nat>)
      requires Acquired(sel) && !machine.tableLocked && machine.live > 0
      modifies this`mtdDevsLive, machine`refs, machine`live
      ensures !mtdDevsLive && machine.live == old(machine.live) - 1
      ensures machine.refs == Shift(old(machine.refs), sel, -1)
    {
      assert mtdDevs[..mtdCount] == sel;
      assert forall k :: 0 <= k < mtdCount ==> mtdDevs[k] == sel[k];
      var end := PutAll();
    }

    /** The module is loaded for the devices `sel`. */
    ghost predicate Running(sel: seq<nat>)
      reads this, mtdDevs, devs
    {
      && mtdDevsLive && classLive && regionLive
      && mtdDevs[..] == sel && count == mtdCount == devs.Length == |sel|
      && (forall k: nat :: k in made <==> k < count)
      && (forall k :: 0 <= k < count ==> devs[k] == Dev(k, sel[k]))
    }

    /**
     * mtdpartctl_device_class_init. On success the module runs on the selected
     * devices, one reference each. Every failure that returns restores all
     * references and frees all memory; the character device region alone is
     * left behind, exactly when creating a control device was what failed.
     */
    method Init(f: Filter, fail: Failures) returns (end: Ending)
      requires |machine.refs| == |machine.slots| && !machine.tableLocked && Idle() && fail.Codes()
      modifies this, machine`refs, machine`tableLocked, machine`live, machine`budget
      ensures end.Done? <==> Acquiring(Sel(f), old(machine.budget) > 0, fail.refuses).Done?
      ensures end.Done? ==> end.ret == LoadCode(Sel(f), old(machine.budget), fail)
      ensures end == Done(0) <==>
                && Sel(f) != [] && Granted(Sel(f), fail.refuses)
                && old(machine.budget) > |Sel(f)| + 1
                && fail.classCode == 0 && fail.regionCode == 0 && fail.creations >= |Sel(f)|
      ensures end == Done(0) ==>
                && Running(Sel(f)) && fresh(mtdDevs) && fresh(devs) && !machine.tableLocked
                && machine.refs == Shift(old(machine.refs), Sel(f), 1)
                && machine.live == old(machine.live) + |Sel(f)| + 2
      ensures end.Done? && end.ret != 0 ==>
                && machine.refs == old(machine.refs) && machine.live == old(machine.live)
                && !machine.tableLocked && !mtdDevsLive && made == {} && !classLive
      ensures end.Done? && end.ret != 0 ==>
                (regionLive <==>
                   && Sel(f) != [] && Granted(Sel(f), fail.refuses)
                   && old(machine.budget) > |Sel(f)| + 1
                   && fail.classCode == 0 && fail.regionCode == 0)
    {
      SelInRange(f);
      end := GetAllMatching(f, fail.refuses);
      if end != Done(0) {
        return;
      }
      ghost var before, sel := old(machine.refs), Sel(f);
      ShiftBack(before, sel);
      assert Acquired(sel);
      var ok := machine.AllocArray(count);
      if !ok {
        DropReferences(sel);
        return Done(ENOMEM);
      }
      devs := new Dev[count];
      if fail.classCode < 0 {
        machine.FreeArray(count);
        DropReferences(sel);
        return Done(fail.classCode);
      }
      classLive := true;
      var ret := CreateDevices(fail);
      if ret != 0 {
        classLive := false;
        machine.FreeArray(count);
        DropReferences(sel);
        return Done(ret);
      }
      return Done(0);
    }

    /** mtdpartctl_device_class_destroy */
    method Destroy(ghost sel: seq<nat>)
      requires Running(sel) && machine.live > count + 1 && !machine.tableLocked
      requires forall k :: 0 <= k < |sel| ==> sel[k] < |machine.refs|
      modifies this`made, this`classLive, this`regionLive, this`mtdDevsLive, machine`refs, machine`live
      ensures Idle() && machine.live == old(machine.live) - |sel| - 2
      ensures machine.refs == Shift(old(machine.refs), sel, -1)
    {
      RemoveDevices(count);
      regionLive := false;
      classLive := false;
      machine.FreeArray(count);
      DropReferences(sel);
    }

    /** A load that succeeds, followed by an unload, leaves every count and allocation as it was. */
    method LoadUnload(f: Filter, fail: Failures) returns (end: Ending)
      requires |machine.refs| == |machine.slots| && !machine.tableLocked && Idle() && fail.Codes()
      modifies this, machine`refs, machine`tableLocked, machine`live, machine`budget
      ensures end == Done(0) ==>
                machine.refs == old(machine.refs) && machine.live == old(machine.live) && Idle()
    {
      SelInRange(f);
      end := Init(f, fail);
      if end == Done(0) {
        ghost var sel := Sel(f);
        ShiftBack(old(machine.refs), sel);
        Destroy(sel);
      }
    }

    /** mtdpartctl_device_resolve_by_minor: in a running module minor m is the device behind which sel[m] sits. */
    method ResolveByMinor(minor: nat, ghost sel: seq<nat>) returns (dev: Option<Dev>)
      requires Running(sel)
      ensures dev == if minor < |sel| then Some(Dev(minor, sel[minor])) else None
    {
      if minor >= count {
        return None;
      }
      return Some(devs[minor]);
    }
  }

  // ----- concrete failures -----

  const NOR := Some(Mtd(false, NorFlash))

  /** The only master device refuses its reference: the array is freed twice. */
  method RefuseOnlyDevice() returns (c: DevClass, end: Ending)
    ensures c.machine.slots == [NOR] && end == DoubleFree
  {
    var m := new Machine([NOR], [0], 8);
    c := new DevClass(m);
    SelectionOfNors(m.slots);
    end := c.GetAllMatching(All, {0});
    assert c.Sel(All) == [0];
  }

  /** The second of two refuses: the load waits for its own lock, holding the first one's reference. */
  method RefuseSecondDevice() returns (c: DevClass, end: Ending)
    ensures c.machine.slots == [NOR, NOR] && end == SelfDeadlock
    ensures c.machine.tableLocked && c.machine.refs == [1, 0]
  {
    var m := new Machine([NOR, NOR], [0, 0], 8);
    c := new DevClass(m);
    SelectionOfNors(m.slots);
    end := c.GetAllMatching(All, {1});
    assert c.Sel(All) == [0, 1] && [0, 1][1] in {1};
    assert c.mtdCount == 1 && [0, 1][..1] == [0];
  }

  /** The first control device cannot be created: the load fails and the region stays registered. */
  method FailFirstCreation() returns (c: DevClass, end: Ending)
    ensures c.machine.slots == [NOR] && end == Done(ENOMEM)
    ensures c.regionLive && c.made == {} && !c.classLive && c.machine.live == 0 && c.machine.refs == [0]
  {
    var m := new Machine([NOR], [0], 8);
    c := new DevClass(m);
    SelectionOfNors(m.slots);
    end := c.Init(All, Failures({}, 0, 0, 0, ENOMEM));
    assert c.Sel(All) == [0];
  }

  lemma SelectionOfNors(slots: Slots)
    ensures slots == [NOR] ==> Selection(slots, All, |slots|) == [0]
    ensures slots == [NOR, NOR] ==> Selection(slots, All, |slots|) == [0, 1]
  {
    if slots == [NOR] {
      assert Selection(slots, All, 0) == [];
    } else if slots == [NOR, NOR] {
      assert Selection(slots, All, 0) == [] && Selection(slots, All, 1) == [0];
    }
  }
}
