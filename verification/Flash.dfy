/**
 * Flash geometry: byte ranges, the erase blocks they cover, and why alignment
 * keeps an erase inside one partition.
 */
module Flash {
  import opened Kernel

  type EraseSize = x: int | 0 < x < U32_LIMIT witness 1

  datatype Geometry = Geometry(size: U64, erasesize: EraseSize)

  function Block(g: Geometry, address: nat): nat {
    address / g.erasesize
  }

  /** The range is a nonempty run of whole erase blocks inside the device. */
  predicate WholeBlocks(g: Geometry, offset: nat, length: nat) {
    && Block(g, offset) < Block(g, offset + length) <= Block(g, g.size)
    && offset == Block(g, offset) * g.erasesize
    && offset + length == Block(g, offset + length) * g.erasesize
  }

  predicate DisjointRanges(offset: nat, length: nat, offset': nat, length': nat) {
    offset + length <= offset' || offset' + length' <= offset
  }

  lemma MulOrder(k: EraseSize, a: int, b: int)
    ensures a < b <==> a * k < b * k
    ensures a <= b <==> a * k <= b * k
  {
    if a < b {
      assert (b - a) * k > 0;
    } else if b < a {
      assert (a - b) * k > 0;
    }
  }

  lemma DivBounds(k: EraseSize, x: nat)
    ensures 0 <= x / k && (x / k) * k <= x < (x / k + 1) * k
    ensures x % k == x - (x / k) * k
  {
  }

  lemma DivUnique(k: EraseSize, x: nat, q: nat)
    requires q * k <= x < (q + 1) * k
    ensures x / k == q
  {
    DivBounds(k, x);
    MulOrder(k, x / k, q + 1);
    MulOrder(k, q, x / k + 1);
  }

  lemma DivMonotone(k: EraseSize, x: nat, y: nat)
    requires x <= y
    ensures x / k <= y / k
  {
    DivBounds(k, x);
    DivBounds(k, y);
    MulOrder(k, x / k, y / k + 1);
  }

  lemma AlignedSum(k: EraseSize, x: nat, y: nat)
    requires x % k == 0
    ensures (x + y) % k == 0 <==> y % k == 0
  {
    DivBounds(k, x);
    DivBounds(k, y);
    var q, r := x / k + y / k, y % k;
    assert (x / k + y / k) * k == (x / k) * k + (y / k) * k;
    assert x + y == q * k + r;
    assert (q + 1) * k == q * k + k;
    DivUnique(k, x + y, q);
    DivBounds(k, x + y);
  }

  /** The range checks of verify_partition_basic_conditions, in their order. */
  function VerifyBasic(g: Geometry, offset: U64, length: U64): (ret: int)
    ensures ret == 0 || ret == EINVAL
  {
    if length == 0 then EINVAL else
    var (wraps, end) := CheckAdd(offset, length);
    if wraps then EINVAL
    else if end > g.size then EINVAL
    else if offset % g.erasesize != 0 then EINVAL
    else if length % g.erasesize != 0 then EINVAL
    else 0
  }

  /**
   * The checks pass exactly for a nonempty run of whole erase blocks inside the
   * device. The device size itself need not be a multiple of the erase size.
   */
  lemma VerifyBasicMeaning(g: Geometry, offset: U64, length: U64)
    ensures VerifyBasic(g, offset, length) == 0 <==> WholeBlocks(g, offset, length)
  {
    var k := g.erasesize;
    DivBounds(k, offset);
    DivBounds(k, offset + length);
    DivBounds(k, g.size);
    MulOrder(k, offset / k, (offset + length) / k);
    MulOrder(k, (offset + length) / k, g.size / k);
    if WholeBlocks(g, offset, length) {
      AlignedSum(k, offset, length);
    } else if VerifyBasic(g, offset, length) == 0 {
      AlignedSum(k, offset, length);
      DivMonotone(k, offset + length, g.size);
    }
  }

  lemma BlockRanges(g: Geometry, offset: nat, length: nat, offset': nat, length': nat)
    requires WholeBlocks(g, offset, length) && WholeBlocks(g, offset', length')
    ensures DisjointRanges(offset, length, offset', length') <==>
            (Block(g, offset + length) <= Block(g, offset') || Block(g, offset' + length') <= Block(g, offset))
  {
    MulOrder(g.erasesize, Block(g, offset + length), Block(g, offset'));
    MulOrder(g.erasesize, Block(g, offset' + length'), Block(g, offset));
  }

  /** Block b of the device is the byte range [b * erasesize, (b + 1) * erasesize). */
  predicate Meets(g: Geometry, b: nat, offset: nat, length: nat) {
    b * g.erasesize < offset + length && offset < (b + 1) * g.erasesize
  }

  predicate Inside(g: Geometry, b: nat, offset: nat, length: nat) {
    offset <= b * g.erasesize && (b + 1) * g.erasesize <= offset + length
  }

  ghost predicate Isolated(g: Geometry, offset: nat, length: nat) {
    forall b: nat :: Meets(g, b, offset, length) ==> Inside(g, b, offset, length)
  }

  /**
   * Alignment is exactly what isolates a nonempty range: every erase block that
   * meets the range lies inside it if and only if both ends are block boundaries.
   */
  lemma IsolatedIffAligned(g: Geometry, offset: nat, length: nat)
    requires length > 0
    ensures Isolated(g, offset, length) <==>
            offset % g.erasesize == 0 && (offset + length) % g.erasesize == 0
  {
    var k := g.erasesize;
    var end := offset + length;
    DivBounds(k, offset);
    DivBounds(k, end);
    if offset % k == 0 && end % k == 0 {
      forall b: nat | Meets(g, b, offset, length)
        ensures Inside(g, b, offset, length)
      {
        MulOrder(k, b, end / k);
        MulOrder(k, offset / k, b + 1);
        MulOrder(k, b + 1, end / k);
        MulOrder(k, offset / k, b);
      }
    } else if offset % k != 0 {
      var b := offset / k;
      assert Meets(g, b, offset, length) && !Inside(g, b, offset, length);
    } else {
      var b := end / k;
      assert Meets(g, b, offset, length) && !Inside(g, b, offset, length);
    }
  }

  /** mtd_erase on a set of blocks: every byte of those blocks reads 0xff. */
  ghost function Erase(g: Geometry, flash: seq<Byte>, blocks: set<nat>): (r: seq<Byte>)
    ensures |r| == |flash|
  {
    seq(|flash|, i requires 0 <= i < |flash| => if Block(g, i) in blocks then 0xff else flash[i])
  }

  /** Byte for byte: a byte reads 0xff if it lies in an erased block, and is as it was otherwise. */
  lemma EraseMeaning(g: Geometry, flash: seq<Byte>, blocks: set<nat>, i: nat)
    requires i < |flash|
    ensures Erase(g, flash, blocks)[i] ==
            if exists b :: b in blocks && b * g.erasesize <= i < (b + 1) * g.erasesize then 0xff else flash[i]
  {
    var k := g.erasesize;
    DivBounds(k, i);
    if b :| b in blocks && b * k <= i < (b + 1) * k {
      DivUnique(k, i, b);
    }
  }

  /** Erasing blocks that one range touches changes no byte of a disjoint, aligned range. */
  lemma EraseStaysInside(g: Geometry, flash: seq<Byte>, blocks: set<nat>,
                         offset: nat, length: nat, offset': nat, length': nat)
    requires WholeBlocks(g, offset, length) && WholeBlocks(g, offset', length')
    requires DisjointRanges(offset, length, offset', length')
    requires offset' + length' <= |flash|
    requires forall b :: b in blocks ==> Meets(g, b, offset, length)
    ensures Erase(g, flash, blocks)[offset'..offset' + length'] == flash[offset'..offset' + length']
  {
    forall i | offset' <= i < offset' + length'
      ensures Erase(g, flash, blocks)[i] == flash[i]
    {
      NotTouched(g, i, offset, length);
    }
  }

  lemma NotTouched(g: Geometry, address: nat, offset: nat, length: nat)
    requires WholeBlocks(g, offset, length)
    requires !(offset <= address < offset + length)
    ensures !Meets(g, Block(g, address), offset, length)
  {
    DivBounds(g.erasesize, address);
    WholeBlocksAligned(g, offset, length);
    IsolatedIffAligned(g, offset, length);
    assert Meets(g, Block(g, address), offset, length) ==> Inside(g, Block(g, address), offset, length);
  }

  lemma WholeBlocksAligned(g: Geometry, offset: nat, length: nat)
    requires WholeBlocks(g, offset, length)
    ensures length > 0 && offset % g.erasesize == 0 && (offset + length) % g.erasesize == 0
  {
    DivBounds(g.erasesize, offset);
    DivBounds(g.erasesize, offset + length);
    MulOrder(g.erasesize, Block(g, offset), Block(g, offset + length));
  }
}
