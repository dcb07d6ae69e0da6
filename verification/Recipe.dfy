/**
 * The partition recipe as a value: what each ioctl on it returns and leaves
 * behind, branch for branch, and the invariant that every run keeps.
 */
module Recipe {
  import opened Kernel
  import opened Flash

  const NAME_MAX := 128
  type Name = s: seq<Byte> | |s| == NAME_MAX witness seq(NAME_MAX, i => 0)

  datatype Request = Request(offset: U64, length: U64, name: Name, readonly: bool, powerupLock: bool)

  datatype Part = Part(offset: U64, length: U64, writable: bool, powerupLock: bool, name: Name)

  datatype Parts = Parts(list: seq<Part>, count: nat)

  datatype Device = Device(recipe: Parts, alreadyOpen: bool)

  const EMPTY := Parts([], 0)

  // ----- names -----

  /** Length of the C string in the buffer: the index of the first NUL, or the buffer's length. */
  function CLength(s: seq<Byte>): (n: nat)
    ensures n <= |s| && (n < |s| ==> s[n] == 0)
    ensures forall i :: 0 <= i < n ==> s[i] != 0
  {
    if s == [] || s[0] == 0 then 0 else 1 + CLength(s[1..])
  }

  function CString(s: seq<Byte>): seq<Byte> {
    s[..CLength(s)]
  }

  /** What a new part stores: the C string cut to 127 bytes, then NULs up to 128 bytes. */
  function StoredName(name: Name): (stored: Name) {
    var n := CLength(name);
    seq(NAME_MAX, i requires 0 <= i < NAME_MAX => if i < n && i < NAME_MAX - 1 then name[i] else 0)
  }

  function ToPart(r: Request): Part {
    Part(r.offset, r.length, !r.readonly, r.powerupLock, StoredName(r.name))
  }

  // ----- the overlap scan -----

  /** existing_partition_contains_range, with its two BUG_ON checks. */
  function OverlapTest(p: Part, offset: U64, length: U64): Outcome {
    var (wraps, existingEnd) := CheckAdd(p.offset, p.length);
    if wraps then BugOn(ExistingEndOverflows) else
    var (wraps', newEnd) := CheckAdd(offset, length);
    if wraps' then BugOn(NewEndOverflows) else
    Ret(if offset < existingEnd && p.offset < newEnd then 1 else 0)
  }

  /** verify_partition_params_locked: the first overlapping item decides. */
  function Scan(list: seq<Part>, offset: U64, length: U64): Outcome {
    if list == [] then Ret(0) else
    var test := OverlapTest(list[0], offset, length);
    if test.BugOn? then test
    else if test.code != 0 then Ret(EINVAL)
    else Scan(list[1..], offset, length)
  }

  predicate Apart(p: Part, offset: nat, length: nat) {
    DisjointRanges(p.offset, p.length, offset, length)
  }

  predicate Good(g: Geometry, p: Part) {
    WholeBlocks(g, p.offset, p.length)
  }

  predicate AllGood(g: Geometry, list: seq<Part>) {
    forall i :: 0 <= i < |list| ==> Good(g, list[i])
  }

  predicate PairwiseApart(list: seq<Part>) {
    forall i, j :: 0 <= i < j < |list| ==> Apart(list[i], list[j].offset, list[j].length)
  }

  predicate Valid(g: Geometry, r: Parts) {
    && AllGood(g, r.list)
    && PairwiseApart(r.list)
    && |r.list| <= r.count
  }

  lemma GoodEnd(g: Geometry, offset: nat, length: nat)
    requires WholeBlocks(g, offset, length)
    ensures 0 < length && offset + length <= g.size
  {
    DivBounds(g.erasesize, g.size);
    MulOrder(g.erasesize, Block(g, offset), Block(g, offset + length));
    MulOrder(g.erasesize, Block(g, offset + length), Block(g, g.size));
  }

  /** On good parts and a good range the scan never hits a BUG_ON and decides disjointness. */
  lemma ScanMeaning(g: Geometry, list: seq<Part>, offset: U64, length: U64)
    requires AllGood(g, list) && WholeBlocks(g, offset, length)
    ensures Scan(list, offset, length) ==
            Ret(if forall i :: 0 <= i < |list| ==> Apart(list[i], offset, length) then 0 else EINVAL)
  {
    GoodEnd(g, offset, length);
    if list != [] {
      GoodEnd(g, list[0].offset, list[0].length);
      ScanMeaning(g, list[1..], offset, length);
      assert forall i :: 0 < i < |list| ==> list[i] == list[1..][i - 1];
      assert (forall i :: 0 <= i < |list| ==> Apart(list[i], offset, length)) <==>
             Apart(list[0], offset, length) && (forall i :: 0 <= i < |list[1..]| ==> Apart(list[1..][i], offset, length));
    }
  }

  // ----- the ioctls -----

  /** add_recipe_part; `memory` says whether kvzalloc succeeds. */
  function Add(g: Geometry, r: Parts, req: Request, memory: bool): (Parts, Outcome) {
    var ret := VerifyBasic(g, req.offset, req.length);
    if ret < 0 then (r, Ret(ret)) else
    var scan := Scan(r.list, req.offset, req.length);
    if scan.BugOn? || scan.code < 0 then (r, scan)
    else if !memory then (r, Ret(ENOMEM))
    else (Parts(r.list + [ToPart(req)], r.count + 1), Ret(0))
  }

  /** del_recipe_part: the node goes, `parts_count` stays. */
  function Del(r: Parts, index: U32): (Parts, Outcome) {
    if index < |r.list| then (Parts(r.list[..index] + r.list[index + 1..], r.count), Ret(0))
    else (r, Ret(ENOENT))
  }

  datatype Op =
    | Open
    | Release
    | AddPart(req: Request, memory: bool)
    | DelPart(index: U32)
    | Restart

  function Step(g: Geometry, d: Device, op: Op): (Device, Outcome) {
    match op
    case Open => if d.alreadyOpen then (d, Ret(EBUSY)) else (Device(EMPTY, true), Ret(0))
    case Release => (d.(alreadyOpen := false), Ret(0))
    case AddPart(req, memory) => var (r, out) := Add(g, d.recipe, req, memory); (d.(recipe := r), out)
    case DelPart(index) => var (r, out) := Del(d.recipe, index); (d.(recipe := r), out)
    case Restart => (d.(recipe := EMPTY), Ret(0))
  }

  function Run(g: Geometry, d: Device, ops: seq<Op>): Device
    decreases |ops|
  {
    if ops == [] then d else Run(g, Step(g, d, ops[0]).0, ops[1..])
  }

  function Outcomes(g: Geometry, d: Device, ops: seq<Op>): seq<Outcome>
    decreases |ops|
  {
    if ops == [] then [] else [Step(g, d, ops[0]).1] + Outcomes(g, Step(g, d, ops[0]).0, ops[1..])
  }

  lemma RunCons(g: Geometry, d: Device, op: Op, ops: seq<Op>)
    ensures Run(g, d, [op] + ops) == Run(g, Step(g, d, op).0, ops)
    ensures Outcomes(g, d, [op] + ops) == [Step(g, d, op).1] + Outcomes(g, Step(g, d, op).0, ops)
  {
    assert ([op] + ops)[1..] == ops;
  }

  // ----- one opener at a time -----

  /** Whether the device is open, from what the calls returned. */
  function HeldOpen(held: bool, ops: seq<Op>, outs: seq<Outcome>): bool
    requires |ops| == |outs|
    decreases |ops|
  {
    if ops == [] then held
    else HeldOpen(if ops[0].Release? then false else held || (ops[0].Open? && outs[0] == Ret(0)), ops[1..], outs[1..])
  }

  lemma {:induction false} RunHeldOpen(g: Geometry, d: Device, ops: seq<Op>)
    ensures |Outcomes(g, d, ops)| == |ops|
    ensures Run(g, d, ops).alreadyOpen == HeldOpen(d.alreadyOpen, ops, Outcomes(g, d, ops))
    decreases |ops|
  {
    if ops != [] {
      var d' := Step(g, d, ops[0]).0;
      RunHeldOpen(g, d', ops[1..]);
      assert Outcomes(g, d, ops)[1..] == Outcomes(g, d', ops[1..]);
    }
  }

  /**
   * Exclusive open after any run from a fresh device: a further open succeeds
   * if and only if no open has succeeded since the last release, and then finds
   * an empty recipe; otherwise it is -EBUSY and changes nothing.
   */
  lemma OpenExclusive(g: Geometry, ops: seq<Op>)
    ensures var d := Run(g, Device(EMPTY, false), ops);
            var (d', out) := Step(g, d, Open);
            |Outcomes(g, Device(EMPTY, false), ops)| == |ops| &&
            if HeldOpen(false, ops, Outcomes(g, Device(EMPTY, false), ops)) then out == Ret(EBUSY) && d' == d
            else out == Ret(0) && d'.recipe.list == [] && d'.recipe.count == 0
  {
    RunHeldOpen(g, Device(EMPTY, false), ops);
  }

  // ----- the invariant over every run -----

  /** A full account of one add on a valid recipe. */
  lemma AddMeaning(g: Geometry, r: Parts, req: Request, memory: bool)
    requires Valid(g, r)
    ensures var (r', out) := Add(g, r, req, memory);
            var fits := WholeBlocks(g, req.offset, req.length)
                        && forall i :: 0 <= i < |r.list| ==> Apart(r.list[i], req.offset, req.length);
            && Valid(g, r')
            && (out == Ret(0) <==> fits && memory)
            && (out == Ret(ENOMEM) <==> fits && !memory)
            && (out == Ret(EINVAL) <==> !fits)
            && r' == if out == Ret(0) then Parts(r.list + [ToPart(req)], r.count + 1) else r
  {
    VerifyBasicMeaning(g, req.offset, req.length);
    if WholeBlocks(g, req.offset, req.length) {
      ScanMeaning(g, r.list, req.offset, req.length);
    }
  }

  lemma DelPairwise(g: Geometry, list: seq<Part>, index: nat)
    requires AllGood(g, list) && PairwiseApart(list) && index < |list|
    ensures AllGood(g, list[..index] + list[index + 1..]) && PairwiseApart(list[..index] + list[index + 1..])
  {
    var list' := list[..index] + list[index + 1..];
    assert forall i :: 0 <= i < |list'| ==> list'[i] == list[if i < index then i else i + 1];
  }

  lemma DelValid(g: Geometry, r: Parts, index: U32)
    requires Valid(g, r)
    ensures Valid(g, Del(r, index).0)
  {
    if index < |r.list| {
      DelPairwise(g, r.list, index);
    }
  }

  lemma StepValid(g: Geometry, d: Device, op: Op)
    requires Valid(g, d.recipe)
    ensures Valid(g, Step(g, d, op).0.recipe)
    ensures Step(g, d, op).1.Ret?
  {
    match op
    case AddPart(req, memory) => AddMeaning(g, d.recipe, req, memory);
    case DelPart(index) => DelValid(g, d.recipe, index);
    case _ =>
  }

  /**
   * Every run keeps the recipe valid, and no call in it stops at one of the
   * overflow BUG_ONs of the overlap test.
   */
  lemma {:induction false} RunValid(g: Geometry, d: Device, ops: seq<Op>)
    requires Valid(g, d.recipe)
    ensures Valid(g, Run(g, d, ops).recipe)
    ensures |Outcomes(g, d, ops)| == |ops|
    ensures forall i :: 0 <= i < |ops| ==> Outcomes(g, d, ops)[i].Ret?
    decreases |ops|
  {
    if ops != [] {
      StepValid(g, d, ops[0]);
      RunValid(g, Step(g, d, ops[0]).0, ops[1..]);
    }
  }
}
