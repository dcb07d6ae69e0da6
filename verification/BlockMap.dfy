/**
 * The list with its pairwise scan stands in for something simple: a map from
 * erase block to owning part. This module states that machine and proves that
 * the driver's list simulates it, call by call, over every run.
 */
module BlockMap {
  import opened Kernel
  import opened Flash
  import opened Recipe

  /** Who owns which erase block, and the first block of each part in insertion order. */
  datatype Bitmap = Bitmap(owner: map<nat, Part>, order: seq<nat>)

  const UNOWNED := Bitmap(map[], [])

  function Interval(lo: nat, hi: nat): (s: set<nat>)
    ensures forall b: nat :: b in s <==> lo <= b < hi
    ensures |s| == if lo < hi then hi - lo else 0
  {
    if hi <= lo then {} else Interval(lo, hi - 1) + {hi - 1}
  }

  /** The erase blocks of a byte range. */
  function Span(g: Geometry, offset: nat, length: nat): set<nat> {
    Interval(Block(g, offset), Block(g, offset + length))
  }

  /** Claim every block of a range for a part, if the range is whole blocks and all of them are free. */
  function Claim(g: Geometry, m: Bitmap, req: Request, memory: bool): (Bitmap, Outcome) {
    var span := Span(g, req.offset, req.length);
    if !WholeBlocks(g, req.offset, req.length) || !(span !! m.owner.Keys) then (m, Ret(EINVAL))
    else if !memory then (m, Ret(ENOMEM))
    else (Bitmap(m.owner + map b | b in span :: ToPart(req), m.order + [Block(g, req.offset)]), Ret(0))
  }

  function Without(owner: map<nat, Part>, part: Part): map<nat, Part> {
    map b | b in owner && owner[b] != part :: owner[b]
  }

  /** Free every block owned by the index-th part. */
  function Free(m: Bitmap, index: U32): (Bitmap, Outcome) {
    if index < |m.order| && m.order[index] in m.owner then
      var part := m.owner[m.order[index]];
      (Bitmap(Without(m.owner, part), m.order[..index] + m.order[index + 1..]), Ret(0))
    else (m, Ret(ENOENT))
  }

  datatype MapDevice = MapDevice(blocks: Bitmap, alreadyOpen: bool)

  function MapStep(g: Geometry, d: MapDevice, op: Op): (MapDevice, Outcome) {
    match op
    case Open => if d.alreadyOpen then (d, Ret(EBUSY)) else (MapDevice(UNOWNED, true), Ret(0))
    case Release => (d.(alreadyOpen := false), Ret(0))
    case AddPart(req, memory) => var (m, out) := Claim(g, d.blocks, req, memory); (d.(blocks := m), out)
    case DelPart(index) => var (m, out) := Free(d.blocks, index); (d.(blocks := m), out)
    case Restart => (d.(blocks := UNOWNED), Ret(0))
  }

  function MapRun(g: Geometry, d: MapDevice, ops: seq<Op>): MapDevice
    decreases |ops|
  {
    if ops == [] then d else MapRun(g, MapStep(g, d, ops[0]).0, ops[1..])
  }

  function MapOutcomes(g: Geometry, d: MapDevice, ops: seq<Op>): seq<Outcome>
    decreases |ops|
  {
    if ops == [] then [] else [MapStep(g, d, ops[0]).1] + MapOutcomes(g, MapStep(g, d, ops[0]).0, ops[1..])
  }

  // ----- the abstraction -----

  function Owns(g: Geometry, p: Part): map<nat, Part> {
    map b | b in Span(g, p.offset, p.length) :: p
  }

  function Owner(g: Geometry, list: seq<Part>): map<nat, Part> {
    if list == [] then map[] else Owner(g, list[..|list| - 1]) + Owns(g, list[|list| - 1])
  }

  function Starts(g: Geometry, list: seq<Part>): (r: seq<nat>)
    ensures |r| == |list|
  {
    seq(|list|, i requires 0 <= i < |list| => Block(g, list[i].offset))
  }

  function Abstract(g: Geometry, r: Parts): Bitmap {
    Bitmap(Owner(g, r.list), Starts(g, r.list))
  }

  function AbstractDevice(g: Geometry, d: Device): MapDevice {
    MapDevice(Abstract(g, d.recipe), d.alreadyOpen)
  }

  /** Block b belongs to the i-th part. */
  predicate Holds(g: Geometry, list: seq<Part>, b: nat, i: nat) {
    i < |list| && b in Span(g, list[i].offset, list[i].length)
  }

  lemma ApartSpans(g: Geometry, p: Part, offset: nat, length: nat)
    requires Good(g, p) && WholeBlocks(g, offset, length)
    ensures Apart(p, offset, length) <==> Span(g, p.offset, p.length) !! Span(g, offset, length)
  {
    BlockRanges(g, p.offset, p.length, offset, length);
    var lo := if Block(g, p.offset) < Block(g, offset) then Block(g, offset) else Block(g, p.offset);
    if !Apart(p, offset, length) {
      assert lo in Span(g, p.offset, p.length) && lo in Span(g, offset, length);
    }
  }

  lemma OneHolder(g: Geometry, list: seq<Part>, b: nat, i: nat, j: nat)
    requires AllGood(g, list) && PairwiseApart(list)
    requires Holds(g, list, b, i) && Holds(g, list, b, j)
    ensures i == j
  {
    if i < j {
      ApartSpans(g, list[i], list[j].offset, list[j].length);
    } else if j < i {
      ApartSpans(g, list[j], list[i].offset, list[i].length);
    }
  }

  lemma {:induction false} HolderOwns(g: Geometry, list: seq<Part>, b: nat, i: nat)
    requires AllGood(g, list) && PairwiseApart(list) && Holds(g, list, b, i)
    ensures b in Owner(g, list) && Owner(g, list)[b] == list[i]
  {
    var n := |list| - 1;
    if i < n {
      HolderOwns(g, list[..n], b, i);
      if Holds(g, list, b, n) {
        OneHolder(g, list, b, i, n);
      }
    }
  }

  lemma {:induction false} FindHolder(g: Geometry, list: seq<Part>, b: nat) returns (i: nat)
    requires AllGood(g, list) && PairwiseApart(list) && b in Owner(g, list)
    ensures Holds(g, list, b, i) && Owner(g, list)[b] == list[i]
  {
    i := |list| - 1;
    if b !in Owns(g, list[i]) {
      i := FindHolder(g, list[..i], b);
      HolderOwns(g, list, b, i);
    }
  }

  /** The owner of a block is the one part that holds it. */
  lemma OwnerMeaning(g: Geometry, list: seq<Part>)
    requires AllGood(g, list) && PairwiseApart(list)
    ensures forall b: nat, i: nat :: Holds(g, list, b, i) ==> b in Owner(g, list) && Owner(g, list)[b] == list[i]
    ensures forall b :: b in Owner(g, list) ==> exists i: nat :: Holds(g, list, b, i)
  {
    forall b: nat, i: nat | Holds(g, list, b, i) {
      HolderOwns(g, list, b, i);
    }
    forall b | b in Owner(g, list)
      ensures exists i: nat :: Holds(g, list, b, i)
    {
      var i := FindHolder(g, list, b);
    }
  }

  lemma StartHeld(g: Geometry, list: seq<Part>, i: nat)
    requires AllGood(g, list) && i < |list|
    ensures Holds(g, list, Starts(g, list)[i], i)
  {
  }

  // ----- the simulation -----

  /** An add is accepted exactly when its blocks are all free, and then owns exactly those. */
  lemma AddSimulates(g: Geometry, r: Parts, req: Request, memory: bool)
    requires Valid(g, r)
    ensures var (r', out) := Add(g, r, req, memory);
            Claim(g, Abstract(g, r), req, memory) == (Abstract(g, r'), out)
  {
    AddMeaning(g, r, req, memory);
    OwnerMeaning(g, r.list);
    var span := Span(g, req.offset, req.length);
    var owned := Owner(g, r.list).Keys;
    if WholeBlocks(g, req.offset, req.length) {
      if i: nat :| i < |r.list| && !Apart(r.list[i], req.offset, req.length) {
        ApartSpans(g, r.list[i], req.offset, req.length);
        var b :| b in Span(g, r.list[i].offset, r.list[i].length) && b in span;
        assert Holds(g, r.list, b, i);
      } else {
        assert span !! owned by {
          forall b | b in owned
            ensures b !in span
          {
            var i: nat :| Holds(g, r.list, b, i);
            ApartSpans(g, r.list[i], req.offset, req.length);
          }
        }
        var list' := r.list + [ToPart(req)];
        assert list'[..|list'| - 1] == r.list;
        assert Starts(g, list') == Starts(g, r.list) + [Block(g, req.offset)];
      }
    }
  }

  /** A delete frees exactly the blocks of the part it removes. */
  lemma DelSimulates(g: Geometry, r: Parts, index: U32)
    requires Valid(g, r)
    ensures var (r', out) := Del(r, index);
            Free(Abstract(g, r), index) == (Abstract(g, r'), out)
  {
    if index < |r.list| {
      OwnerAfterDel(g, r.list, index);
      StartsAfterDel(g, r.list, index);
      OwnerMeaning(g, r.list);
      StartHeld(g, r.list, index);
    }
  }

  lemma StartsAfterDel(g: Geometry, list: seq<Part>, index: nat)
    requires index < |list|
    ensures Starts(g, list[..index] + list[index + 1..]) == Starts(g, list)[..index] + Starts(g, list)[index + 1..]
  {
  }

  lemma OwnerAfterDel(g: Geometry, list: seq<Part>, index: nat)
    requires AllGood(g, list) && PairwiseApart(list) && index < |list|
    ensures Without(Owner(g, list), list[index]) == Owner(g, list[..index] + list[index + 1..])
  {
    DelPairwise(g, list, index);
    forall b: nat {
      DelOwner(g, list, index, b);
    }
  }

  lemma DelOwner(g: Geometry, list: seq<Part>, index: nat, b: nat)
    requires AllGood(g, list) && PairwiseApart(list) && index < |list|
    requires AllGood(g, list[..index] + list[index + 1..]) && PairwiseApart(list[..index] + list[index + 1..])
    ensures var owner, owner' := Owner(g, list), Owner(g, list[..index] + list[index + 1..]);
            && (b in owner && owner[b] != list[index] <==> b in owner')
            && (b in owner' ==> b in owner && owner'[b] == owner[b])
  {
    var list' := list[..index] + list[index + 1..];
    if b in Owner(g, list') {
      var i := FindHolder(g, list', b);
      KeptHolder(g, list, index, b, i);
      HolderOwns(g, list, b, if i < index then i else i + 1);
    } else if b in Owner(g, list) {
      var j := FindHolder(g, list, b);
      if j != index {
        HolderOwns(g, list', b, if j < index then j else j - 1);
      }
    }
  }

  lemma KeptHolder(g: Geometry, list: seq<Part>, index: nat, b: nat, i: nat)
    requires AllGood(g, list) && PairwiseApart(list) && index < |list|
    requires Holds(g, list[..index] + list[index + 1..], b, i)
    ensures var j := if i < index then i else i + 1;
            Holds(g, list, b, j) && list[j] == (list[..index] + list[index + 1..])[i] && list[j] != list[index]
  {
    var j := if i < index then i else i + 1;
    if list[j] == list[index] {
      OneHolder(g, list, b, j, index);
    }
  }

  lemma StepSimulates(g: Geometry, d: Device, op: Op)
    requires Valid(g, d.recipe)
    ensures var (d', out) := Step(g, d, op);
            MapStep(g, AbstractDevice(g, d), op) == (AbstractDevice(g, d'), out)
  {
    assert Abstract(g, EMPTY) == UNOWNED;
    match op
    case AddPart(req, memory) => AddSimulates(g, d.recipe, req, memory);
    case DelPart(index) => DelSimulates(g, d.recipe, index);
    case _ =>
  }

  /** Over every run the list and the block map return the same codes and stay related. */
  lemma {:induction false} RunSimulates(g: Geometry, d: Device, ops: seq<Op>)
    requires Valid(g, d.recipe)
    ensures AbstractDevice(g, Run(g, d, ops)) == MapRun(g, AbstractDevice(g, d), ops)
    ensures Outcomes(g, d, ops) == MapOutcomes(g, AbstractDevice(g, d), ops)
    decreases |ops|
  {
    if ops != [] {
      StepSimulates(g, d, ops[0]);
      StepValid(g, d, ops[0]);
      RunSimulates(g, Step(g, d, ops[0]).0, ops[1..]);
    }
  }

  // ----- packing -----

  function TotalLength(list: seq<Part>): nat {
    if list == [] then 0 else TotalLength(list[..|list| - 1]) + list[|list| - 1].length
  }

  lemma SubsetSize(a: set<nat>, b: set<nat>)
    requires a <= b
    ensures |a| <= |b|
  {
    assert b == a + (b - a);
  }

  lemma OwnerGrows(g: Geometry, list: seq<Part>)
    requires AllGood(g, list) && PairwiseApart(list) && list != []
    ensures var p := list[|list| - 1];
            |Owner(g, list)| == |Owner(g, list[..|list| - 1])| + |Span(g, p.offset, p.length)|
  {
    var n := |list| - 1;
    var init, p := list[..n], list[n];
    OwnerMeaning(g, init);
    forall b | b in Owner(g, init)
      ensures b !in Owns(g, p)
    {
      var i: nat :| Holds(g, init, b, i);
      if b in Owns(g, p) {
        assert Holds(g, list, b, i) && Holds(g, list, b, n);
        OneHolder(g, list, b, i, n);
      }
    }
    assert Owner(g, list).Keys == Owner(g, init).Keys + Span(g, p.offset, p.length);
    assert |Owner(g, list).Keys| == |Owner(g, init).Keys| + |Span(g, p.offset, p.length)|;
  }

  function BlocksUsed(g: Geometry, list: seq<Part>): nat {
    if list == [] then 0 else
    var p := list[|list| - 1];
    BlocksUsed(g, list[..|list| - 1]) + |Span(g, p.offset, p.length)|
  }

  /** Disjointness counted: the map owns as many blocks as the parts have. */
  lemma {:induction false} OwnedBlocks(g: Geometry, list: seq<Part>)
    requires AllGood(g, list) && PairwiseApart(list)
    ensures |Owner(g, list)| == BlocksUsed(g, list)
  {
    if list != [] {
      OwnedBlocks(g, list[..|list| - 1]);
      OwnerGrows(g, list);
    }
  }

  /** Alignment counted: the lengths are whole blocks, at least one a part. */
  lemma {:induction false} BytesUsed(g: Geometry, list: seq<Part>)
    requires AllGood(g, list)
    ensures TotalLength(list) == BlocksUsed(g, list) * g.erasesize
    ensures |list| <= BlocksUsed(g, list)
  {
    if list != [] {
      var p := list[|list| - 1];
      assert Good(g, p);
      BytesUsed(g, list[..|list| - 1]);
      LengthInBlocks(g, p.offset, p.length, BlocksUsed(g, list[..|list| - 1]));
    }
  }

  lemma LengthInBlocks(g: Geometry, offset: nat, length: nat, others: nat)
    requires WholeBlocks(g, offset, length)
    ensures |Span(g, offset, length)| >= 1
    ensures others * g.erasesize + length == (others + |Span(g, offset, length)|) * g.erasesize
  {
    var n := Block(g, offset + length) - Block(g, offset);
    assert (others + n) * g.erasesize == others * g.erasesize + n * g.erasesize;
  }

  /**
   * The packing bound for every valid recipe, whatever its insertion order: the
   * lengths sum to at most the device size, and there are at most as many parts
   * as erase blocks.
   */
  lemma Packing(g: Geometry, r: Parts)
    requires Valid(g, r)
    ensures TotalLength(r.list) <= g.size
    ensures |r.list| <= g.size / g.erasesize
  {
    OwnedBlocks(g, r.list);
    BytesUsed(g, r.list);
    OwnerMeaning(g, r.list);
    var blocks := Block(g, g.size);
    var all := Interval(0, blocks);
    forall b | b in Owner(g, r.list).Keys
      ensures b in all
    {
      var i: nat :| Holds(g, r.list, b, i);
    }
    SubsetSize(Owner(g, r.list).Keys, all);
    assert |Owner(g, r.list).Keys| == |Owner(g, r.list)|;
    MulOrder(g.erasesize, |Owner(g, r.list)|, blocks);
    DivBounds(g.erasesize, g.size);
  }

  lemma RunPacking(g: Geometry, ops: seq<Op>)
    ensures var r := Run(g, Device(EMPTY, false), ops).recipe;
            TotalLength(r.list) <= g.size && |r.list| <= g.size / g.erasesize
  {
    RunValid(g, Device(EMPTY, false), ops);
    Packing(g, Run(g, Device(EMPTY, false), ops).recipe);
  }

  // ----- isolation -----

  /**
   * In every reachable recipe, erasing any blocks that one part touches leaves
   * every byte of every other part as it was.
   */
  lemma RunIsolation(g: Geometry, ops: seq<Op>, flash: seq<Byte>, blocks: set<nat>, i: nat, j: nat)
    requires |flash| == g.size
    requires var list := Run(g, Device(EMPTY, false), ops).recipe.list;
             i < |list| && j < |list| && i != j
             && forall b :: b in blocks ==> Meets(g, b, list[i].offset, list[i].length)
    ensures var q := Run(g, Device(EMPTY, false), ops).recipe.list[j];
            && q.offset + q.length <= |flash|
            && Erase(g, flash, blocks)[q.offset..q.offset + q.length] == flash[q.offset..q.offset + q.length]
  {
    RunValid(g, Device(EMPTY, false), ops);
    var list := Run(g, Device(EMPTY, false), ops).recipe.list;
    GoodEnd(g, list[j].offset, list[j].length);
    assert i < j ==> Apart(list[i], list[j].offset, list[j].length);
    assert j < i ==> Apart(list[j], list[i].offset, list[i].length);
    EraseStaysInside(g, flash, blocks, list[i].offset, list[i].length, list[j].offset, list[j].length);
  }
}
