/**
 * The recipe as the driver keeps it: a list and a counter changed in place by
 * the ioctls. Each method is proved against the value model of module Recipe.
 */
module RecipeDevice {
  import opened Kernel
  import opened Flash
  import opened Recipe
  import opened Publication

  /** User memory behind a list ioctl: mapped item slots, and whether the count word can be written. */
  class UserList {
    var readCount: U32
    const parts: array<Request>
    const countWritable: bool

    constructor (slots: array<Request>, writable: bool, requested: U32)
      ensures parts == slots && countWritable == writable && readCount == requested
    {
      parts := slots;
      countWritable := writable;
      readCount := requested;
    }

    /** copy_to_user of one item: faults on an unmapped slot. */
    method CopyItem(slot: nat, info: Request) returns (fault: bool)
      modifies parts
      ensures fault == (slot >= parts.Length)
      ensures parts[..] == if fault then old(parts[..]) else old(parts[..])[slot := info]
    {
      fault := slot >= parts.Length;
      if !fault {
        parts[slot] := info;
      }
    }

    /** copy_to_user of the count word. */
    method CopyCount(count: U32) returns (fault: bool)
      modifies this`readCount
      ensures fault == !countWritable
      ensures readCount == if fault then old(readCount) else count
    {
      fault := !countWritable;
      if !fault {
        readCount := count;
      }
    }
  }

  /** strnlen over the name buffer. */
  method NameLength(name: seq<Byte>) returns (n: nat)
    ensures n == CLength(name)
  {
    n := 0;
    while n < |name| && name[n] != 0
      invariant n <= |name|
      invariant CLength(name) == n + CLength(name[n..])
    {
      n := n + 1;
    }
  }

  /** The memcpy of the C string into a zeroed node, with the last byte forced to NUL. */
  method CopyName(name: Name) returns (stored: array<Byte>)
    ensures fresh(stored) && stored[..] == StoredName(name)
  {
    stored := new Byte[NAME_MAX](_ => 0);
    var n := NameLength(name);
    var i := 0;
    while i < n
      invariant i <= n <= stored.Length
      invariant forall k :: 0 <= k < stored.Length ==> stored[k] == if k < i then name[k] else 0
    {
      stored[i] := name[i];
      i := i + 1;
    }
    stored[NAME_MAX - 1] := 0;
  }

  class ControlDevice {
    const geometry: Geometry
    var list: seq<Part>
    var partsCount: nat
    var alreadyOpen: bool

    constructor (g: Geometry)
      ensures geometry == g && State() == Device(EMPTY, false)
    {
      geometry := g;
      list, partsCount, alreadyOpen := [], 0, false;
    }

    function State(): Device
      reads this
    {
      Device(Parts(list, partsCount), alreadyOpen)
    }

    ghost predicate InRange()
      reads this
    {
      Valid(geometry, State().recipe)
    }

    method RestartRecipe()
      modifies this`list, this`partsCount
      ensures State() == old(State()).(recipe := EMPTY)
    {
      while list != []
        invariant alreadyOpen == old(alreadyOpen) && partsCount == old(partsCount)
        decreases |list|
      {
        list := list[1..];
      }
      partsCount := 0;
    }

    method OpenDevice() returns (ret: int)
      modifies this
      ensures (State(), Ret(ret)) == Step(geometry, old(State()), Op.Open)
    {
      if alreadyOpen {
        return EBUSY;
      }
      alreadyOpen := true;
      RestartRecipe();
      return 0;
    }

    method ReleaseDevice()
      modifies this`alreadyOpen
      ensures State() == Step(geometry, old(State()), Op.Release).0
    {
      alreadyOpen := false;
    }

    /** The pairwise scan; it stops at the first overlapping item. */
    method VerifyParams(offset: U64, length: U64) returns (out: Outcome)
      ensures out == Scan(list, offset, length)
    {
      out := Ret(0);
      var i := 0;
      while i < |list|
        invariant 0 <= i <= |list|
        invariant out == Ret(0)
        invariant Scan(list[i..], offset, length) == Scan(list, offset, length)
      {
        var test := OverlapTest(list[i], offset, length);
        if test.BugOn? {
          return test;
        }
        if test.code != 0 {
          return Ret(EINVAL);
        }
        i := i + 1;
      }
    }

    method AddRecipePart(req: Request, memory: bool) returns (out: Outcome)
      modifies this`list, this`partsCount
      ensures (State(), out) == Step(geometry, old(State()), AddPart(req, memory))
    {
      var ret := VerifyBasic(geometry, req.offset, req.length);
      if ret < 0 {
        return Ret(ret);
      }
      out := VerifyParams(req.offset, req.length);
      if out.BugOn? || out.code < 0 {
        return;
      }
      if !memory {
        return Ret(ENOMEM);
      }
      var name := CopyName(req.name);
      list := list + [Part(req.offset, req.length, !req.readonly, req.powerupLock, name[..])];
      partsCount := partsCount + 1;
      out := Ret(0);
    }

    method DelRecipePart(index: U32) returns (ret: int)
      modifies this`list
      ensures (State(), Ret(ret)) == Step(geometry, old(State()), DelPart(index))
    {
      var i := 0;
      while i < |list|
        invariant 0 <= i <= |list| && i <= index
        invariant list == old(list)
      {
        if i == index {
          list := list[..i] + list[i + 1..];
          return 0;
        }
        i := i + 1;
      }
      ret := ENOENT;
    }

    /**
     * Fills a zeroed array of `parts_count` entries from the list. That the
     * writes stay inside the array is the part of the invariant that survives
     * deletes: the counter never falls below the list's length. Each flag set
     * holds the one flag its part asks for or nothing.
     */
    method ConvertRecipe(memory: bool) returns (out: Outcome, partitions: array?<MtdPartition>)
      requires InRange()
      ensures out == Convert(State().recipe, memory).0
      ensures partitions != null <==> out == Ret(0)
      ensures partitions != null ==> fresh(partitions) && partitions[..] == Convert(State().recipe, memory).1
      ensures partitions != null ==>
                && partitions.Length == partsCount
                && (forall k :: 0 <= k < |list| ==>
                      && partitions[k].name == Some(list[k].name) && partitions[k].probes
                      && partitions[k].offset == list[k].offset && partitions[k].size == list[k].length
                      && partitions[k].maskFlags == (if list[k].writable then {} else {Writeable})
                      && partitions[k].addFlags == (if list[k].powerupLock then {PowerupLock} else {}))
                && (forall k :: |list| <= k < partsCount ==> partitions[k] == ZEROED)
    {
      partitions := null;
      if partsCount == 0 {
        return Ret(EINVAL), null;
      }
      if list == [] {
        return BugOn(EmptyListPublished), null;
      }
      if !memory {
        return Ret(ENOMEM), null;
      }
      var a := new MtdPartition[partsCount](_ => ZEROED);
      var idx := 0;
      while idx < |list|
        invariant 0 <= idx <= |list| <= a.Length
        invariant forall k :: 0 <= k < a.Length ==> a[k] == if k < idx then Entry(list[k]) else ZEROED
      {
        a[idx] := a[idx].(name := Some(list[idx].name), probes := true,
                          offset := list[idx].offset, size := list[idx].length);
        if !list[idx].writable {
          a[idx] := a[idx].(maskFlags := a[idx].maskFlags + {Writeable});
        }
        if list[idx].powerupLock {
          a[idx] := a[idx].(addFlags := a[idx].addFlags + {PowerupLock});
        }
        idx := idx + 1;
      }
      return Ret(0), a;
    }

    /**
     * LIST_RECIPE_PARTS for `requested` items: the first min(requested, actual)
     * parts in insertion order, then their number.
     */
    method ListRecipeParts(requested: U32, user: UserList) returns (ret: int)
      modifies user`readCount, user.parts
      ensures var n := if requested < |list| then requested else |list|;
              var filled := if n < user.parts.Length then n else user.parts.Length;
              && ret == (if n <= user.parts.Length && user.countWritable then 0 else EFAULT)
              && user.parts[..filled] == Infos(list)[..filled]
              && user.parts[filled..] == old(user.parts[..])[filled..]
              && user.readCount == if ret == 0 then n else old(user.readCount)
    {
      ret := 0;
      var tmp := 0;
      while tmp < |list| && tmp < requested
        invariant tmp <= |list| && tmp <= requested && tmp <= user.parts.Length
        invariant user.readCount == old(user.readCount)
        invariant user.parts[..tmp] == Infos(list)[..tmp]
        invariant user.parts[tmp..] == old(user.parts[..])[tmp..]
      {
        ghost var before := user.parts[..];
        var fault := user.CopyItem(tmp, Info(list[tmp]));
        if fault {
          return EFAULT;
        }
        assert user.parts[..tmp] == before[..tmp] && user.parts[tmp + 1..] == before[tmp..][1..];
        tmp := tmp + 1;
      }
      var fault := user.CopyCount(tmp);
      if fault {
        ret := EFAULT;
      }
    }
  }
}
