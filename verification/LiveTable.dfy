/**
 * The live partition table under the direct ioctls: adding with a length or
 * "the rest of the device", and deleting by relative index.
 */
module LiveTable {
  import opened Kernel
  import opened Flash

  /** A registered partition; `index` is its absolute MTD number. */
  datatype Child = Child(index: nat, offset: U64, length: U64)

  // ----- adding -----

  /** adapt_possible_full_mtd_partition_length: None is the -EINVAL of an offset past the end. */
  function AdaptLength(g: Geometry, offset: U64, length: U64): Option<U64> {
    if length != 0 then Some(length)
    else if offset > g.size then None
    else Some(g.size - offset)
  }

  /** Whether ADD_MTD_PARTITION gets as far as the MTD core. */
  predicate ReachesCore(g: Geometry, offset: U64, length: U64) {
    var adapted := AdaptLength(g, offset, length);
    adapted.Some? && VerifyBasic(g, offset, adapted.value) == 0
  }

  /**
   * A length is taken as given and must make whole blocks; asking for the rest
   * of the device works exactly from an aligned offset below the end of a
   * device that is itself a whole number of erase blocks.
   */
  lemma AddMeaning(g: Geometry, offset: U64, length: U64)
    ensures length != 0 ==> (ReachesCore(g, offset, length) <==> WholeBlocks(g, offset, length))
    ensures length == 0 ==> (ReachesCore(g, offset, length) <==>
                             offset < g.size && offset % g.erasesize == 0 && g.size % g.erasesize == 0)
  {
    if length != 0 {
      VerifyBasicMeaning(g, offset, length);
    } else if offset <= g.size && offset % g.erasesize == 0 {
      AlignedSum(g.erasesize, offset, g.size - offset);
    }
  }

  // ----- deleting -----

  /** mtd_relative_master_index_to_absolute_index: `tmp_idx` never moves along with the walk. */
  function Resolve(children: seq<Child>, tmpIdx: U32, idx: U32): int {
    if children == [] then -1
    else if tmpIdx == idx then children[0].index
    else Resolve(children[1..], tmpIdx, idx)
  }

  /** The absolute index in entry `idx` of the listing of the live table. */
  function Listed(children: seq<Child>, idx: U32): int {
    if idx < |children| then children[idx].index else -1
  }

  lemma {:induction false} ResolveFixed(children: seq<Child>, idx: U32)
    requires idx != 0
    ensures Resolve(children, 0, idx) == -1
  {
    if children != [] {
      ResolveFixed(children[1..], idx);
    }
  }

  /** A relative index resolves to its entry in the listing exactly for index 0 and past the end. */
  lemma ResolveMeaning(children: seq<Child>, idx: U32)
    ensures Resolve(children, 0, idx) == Listed(children, idx) <==> idx == 0 || idx >= |children|
  {
    if idx != 0 {
      ResolveFixed(children, idx);
    }
  }

  /** Two partitions are enough: index 1 is listed and does not resolve. */
  lemma SecondDoesNotResolve(a: Child, b: Child)
    ensures Listed([a, b], 1) == b.index && Resolve([a, b], 0, 1) == -1
  {
    ResolveFixed([a, b], 1);
  }

  /** The walk with the index it means to advance. */
  function ResolveCounting(children: seq<Child>, tmpIdx: nat, idx: U32): int {
    if children == [] then -1
    else if tmpIdx == idx then children[0].index
    else ResolveCounting(children[1..], tmpIdx + 1, idx)
  }

  /** Advancing the index, every relative index resolves to its entry in the listing. */
  lemma {:induction false} CountingResolves(children: seq<Child>, tmpIdx: nat, idx: U32)
    requires tmpIdx <= idx
    ensures ResolveCounting(children, tmpIdx, idx) == Listed(children, idx - tmpIdx)
  {
    if children != [] && tmpIdx != idx {
      CountingResolves(children[1..], tmpIdx + 1, idx);
    }
  }

  /** mtd_del_partition when it succeeds: the child with that number goes. */
  function Remove(children: seq<Child>, index: int): seq<Child> {
    if children == [] then []
    else if children[0].index == index then children[1..]
    else [children[0]] + Remove(children[1..], index)
  }

  /** DEL_MTD_PARTITION with no respawn, no users, and a core that succeeds. */
  function Delete(children: seq<Child>, idx: U32): (seq<Child>, int) {
    var absolute := Resolve(children, 0, idx);
    if absolute < 0 then (children, EINVAL) else (Remove(children, absolute), 0)
  }

  /** n deletes at index 0, and whether all of them returned 0. */
  function DeleteFirst(children: seq<Child>, n: nat): (seq<Child>, bool) {
    if n == 0 then (children, true) else
    var (rest, ok) := DeleteFirst(children, n - 1);
    var (rest', ret) := Delete(rest, 0);
    (rest', ok && ret == 0)
  }

  /**
   * Deleting at index 0 drains the table: n deletes remove the first n
   * partitions, so |children| of them empty it, and the next returns -EINVAL.
   */
  lemma {:induction false} DrainByZero(children: seq<Child>, n: nat)
    requires n <= |children|
    ensures DeleteFirst(children, n) == (children[n..], true)
    ensures n == |children| ==> Delete(DeleteFirst(children, n).0, 0) == ([], EINVAL)
  {
    if n > 0 {
      DrainByZero(children, n - 1);
      assert children[n - 1..][1..] == children[n..];
    }
  }

  // ----- the table in place -----

  class ProxyTable {
    var children: seq<Child>
    var aboutToRespawn: bool
    var useRefcnt: int

    constructor ()
      ensures children == [] && !aboutToRespawn && useRefcnt == 0
    {
      children, aboutToRespawn, useRefcnt := [], false, 0;
    }

    /**
     * ADD_MTD_PARTITION; `core` is what mtd_add_partition returns and `index`
     * the number it gives the new partition. The range is checked before the
     * lock is taken, so a bad range is -EINVAL even while the device is busy.
     */
    method AddPartition(g: Geometry, offset: U64, length: U64, core: int, index: nat) returns (ret: int)
      requires core <= 0
      modifies this`children
      ensures !ReachesCore(g, offset, length) ==> ret == EINVAL && children == old(children)
      ensures ReachesCore(g, offset, length) && (aboutToRespawn || useRefcnt != 0) ==>
                ret == EBUSY && children == old(children)
      ensures ReachesCore(g, offset, length) && !aboutToRespawn && useRefcnt == 0 ==>
                ret == core && (core < 0 ==> children == old(children))
      ensures ReachesCore(g, offset, length) && !aboutToRespawn && useRefcnt == 0 && core == 0 ==>
                |children| == |old(children)| + 1 && children[..|old(children)|] == old(children)
                && var child := children[|old(children)|];
                   && child.index == index && child.offset == offset
                   && (length != 0 ==> child.length == length)
                   && (length == 0 ==> child.offset + child.length == g.size)
    {
      var adapted := AdaptLength(g, offset, length);
      if adapted.None? {
        return EINVAL;
      }
      ret := VerifyBasic(g, offset, adapted.value);
      if ret < 0 {
        return;
      }
      if aboutToRespawn || useRefcnt != 0 {
        return EBUSY;
      }
      if core == 0 {
        children := children + [Child(index, offset, adapted.value)];
      }
      ret := core;
    }

    method AbsoluteIndex(idx: U32) returns (absolute: int)
      ensures absolute == Resolve(children, 0, idx)
    {
      var tmpIdx: U32 := 0;
      var i := 0;
      absolute := -1;
      while i < |children|
        invariant 0 <= i <= |children| && absolute == -1 && tmpIdx == 0
        invariant Resolve(children, 0, idx) == Resolve(children[i..], tmpIdx, idx)
      {
        if tmpIdx == idx {
          return children[i].index;
        }
        i := i + 1;
      }
    }

    /** `core` is what mtd_del_partition returns. */
    method DelPartition(idx: U32, core: int) returns (ret: int)
      requires core <= 0
      modifies this`children
      ensures var free := !aboutToRespawn && useRefcnt == 0;
              && (!free ==> ret == EBUSY && children == old(children))
              && (free && core == 0 ==> (children, ret) == Delete(old(children), idx))
              && (free && core < 0 ==>
                    children == old(children) && ret == if Resolve(old(children), 0, idx) < 0 then EINVAL else core)
      ensures !aboutToRespawn && useRefcnt == 0 && (idx != 0 || old(children) == []) ==>
                ret == EINVAL && children == old(children)
      ensures !aboutToRespawn && useRefcnt == 0 && idx == 0 && old(children) != [] ==>
                ret == core && children == if core == 0 then old(children)[1..] else old(children)
    {
      if aboutToRespawn || useRefcnt != 0 {
        return EBUSY;
      }
      var absolute := AbsoluteIndex(idx);
      if idx != 0 {
        ResolveFixed(children, idx);
      }
      if absolute < 0 {
        return EINVAL;
      }
      if core == 0 {
        children := Remove(children, absolute);
      }
      ret := core;
    }
  }
}
