/**
 * Compiling the recipe into the partition array handed to the MTD core, and
 * listing it back to user space.
 */
module Publication {
  import opened Kernel
  import opened Flash
  import opened Recipe

  datatype Flag = Writeable | PowerupLock

  /** struct mtd_partition; a zeroed entry has no name. */
  datatype MtdPartition = MtdPartition(name: Option<Name>, probes: bool, offset: U64, size: U64,
                                       maskFlags: set<Flag>, addFlags: set<Flag>)

  const ZEROED := MtdPartition(None, false, 0, 0, {}, {})

  function Entry(p: Part): MtdPartition {
    MtdPartition(Some(p.name), true, p.offset, p.length,
                 if p.writable then {} else {Writeable}, if p.powerupLock then {PowerupLock} else {})
  }

  function Entries(list: seq<Part>): (r: seq<MtdPartition>)
    ensures |r| == |list|
  {
    seq(|list|, i requires 0 <= i < |list| => Entry(list[i]))
  }

  /** convert_recipe_to_mtd_partitions_locked: the outcome and, on success, the array. */
  function Convert(r: Parts, memory: bool): (Outcome, seq<MtdPartition>) {
    if r.count == 0 then (Ret(EINVAL), [])
    else if r.list == [] then (BugOn(EmptyListPublished), [])
    else if !memory then (Ret(ENOMEM), [])
    else (Ret(0), seq(r.count, i requires 0 <= i < r.count => if i < |r.list| then Entry(r.list[i]) else ZEROED))
  }

  /** The part an array entry describes. */
  function Described(e: MtdPartition): Part
    requires e.name.Some?
  {
    Part(e.offset, e.size, Writeable !in e.maskFlags, PowerupLock in e.addFlags, e.name.value)
  }

  /** The successful adds and deletes since the list was last emptied. */
  datatype History = History(adds: nat, dels: nat)

  const FRESH := History(0, 0)

  function Note(h: History, op: Op, out: Outcome): History {
    if out != Ret(0) then h else
    match op
    case Open => FRESH
    case Restart => FRESH
    case AddPart(_, _) => h.(adds := h.adds + 1)
    case DelPart(_) => h.(dels := h.dels + 1)
    case Release => h
  }

  function Recall(g: Geometry, d: Device, h: History, ops: seq<Op>): History
    decreases |ops|
  {
    if ops == [] then h else
    var (d', out) := Step(g, d, ops[0]);
    Recall(g, d', Note(h, ops[0], out), ops[1..])
  }

  predicate Tallies(r: Parts, h: History) {
    r.count == h.adds && |r.list| + h.dels == h.adds
  }

  /**
   * Conservation over every run: `parts_count` counts the adds since the last
   * restart, and the list is shorter by the deletes since then.
   */
  lemma {:induction false} RunTallies(g: Geometry, d: Device, h: History, ops: seq<Op>)
    requires Valid(g, d.recipe) && Tallies(d.recipe, h)
    ensures Tallies(Run(g, d, ops).recipe, Recall(g, d, h, ops))
    decreases |ops|
  {
    if ops != [] {
      var (d', out) := Step(g, d, ops[0]);
      StepValid(g, d, ops[0]);
      match ops[0] {
        case AddPart(req, memory) => AddMeaning(g, d.recipe, req, memory);
        case _ =>
      }
      RunTallies(g, d', Note(h, ops[0], out), ops[1..]);
    }
  }

  /**
   * What a publish does after any run from a fresh device, decided by the adds
   * and deletes since the last restart alone. The array is exactly the recipe,
   * and never ends in zeroed entries, if and only if nothing was deleted; the
   * BUG_ON on an empty list is hit if and only if everything added was deleted.
   */
  lemma PublishAfterRun(g: Geometry, ops: seq<Op>, memory: bool)
    ensures var r := Run(g, Device(EMPTY, false), ops).recipe;
            var h := Recall(g, Device(EMPTY, false), FRESH, ops);
            var (out, parts) := Convert(r, memory);
            && (out == Ret(EINVAL) <==> h.adds == 0)
            && (out == BugOn(EmptyListPublished) <==> h.adds > 0 && h.adds == h.dels)
            && (out == Ret(ENOMEM) <==> h.adds > h.dels && !memory)
            && (out == Ret(0) ==>
                  && |parts| == h.adds
                  && |r.list| == h.adds - h.dels
                  && parts[..|r.list|] == Entries(r.list)
                  && (forall i :: |r.list| <= i < |parts| ==> parts[i] == ZEROED)
                  && (parts == Entries(r.list) <==> h.dels == 0)
                  && (ZEROED in parts <==> h.dels > 0))
  {
    var d := Device(EMPTY, false);
    RunTallies(g, d, FRESH, ops);
    RunValid(g, d, ops);
    var r := Run(g, d, ops).recipe;
    var h := Recall(g, d, FRESH, ops);
    var (out, parts) := Convert(r, memory);
    if out == Ret(0) {
      if h.dels > 0 {
        assert parts[|r.list|] == ZEROED;
      }
      assert forall i :: 0 <= i < |r.list| ==> parts[i] == Entry(r.list[i]) && parts[i] != ZEROED;
    }
  }

  /** Nothing is lost or added on the way: entry i has the name, range and flags of list item i, and describes it. */
  lemma PublishLossless(r: Parts, i: nat)
    requires i < |r.list| <= r.count
    ensures var (out, parts) := Convert(r, true);
            var p := r.list[i];
            && out == Ret(0)
            && parts[i].name == Some(p.name) && parts[i].probes
            && parts[i].offset == p.offset && parts[i].size == p.length
            && parts[i].maskFlags == (if p.writable then {} else {Writeable})
            && parts[i].addFlags == (if p.powerupLock then {PowerupLock} else {})
            && Described(parts[i]) == p
  {
    assert Convert(r, true).1[i] == Entry(r.list[i]);
  }

  /** One add and one delete are enough to reach the BUG_ON; two adds and a delete, a zeroed entry. */
  lemma DeleteBreaksPublish(g: Geometry, name: Name)
    requires g.size >= 2 * g.erasesize
    ensures var first := AddPart(Request(0, g.erasesize, name, false, false), true);
            var second := AddPart(Request(g.erasesize, g.erasesize, name, false, false), true);
            var d := Device(EMPTY, false);
            && Convert(Run(g, d, [Open, first, DelPart(0)]).recipe, true).0 == BugOn(EmptyListPublished)
            && Convert(Run(g, d, [Open, first, second, DelPart(0)]).recipe, true).1 ==
               [Entry(ToPart(second.req)), ZEROED]
  {
    var k := g.erasesize;
    var first := AddPart(Request(0, k, name, false, false), true);
    var second := AddPart(Request(k, k, name, false, false), true);
    var d0 := Device(EMPTY, true);
    assert VerifyBasic(g, 0, k) == 0;
    assert VerifyBasic(g, k, k) == 0;
    var d1 := Device(Parts([ToPart(first.req)], 1), true);
    assert EMPTY.list + [ToPart(first.req)] == d1.recipe.list;
    assert Step(g, d0, first) == (d1, Ret(0));
    var p := ToPart(first.req);
    assert Scan([p], k, k) == Ret(0) by {
      assert OverlapTest(p, k, k) == Ret(0);
    }
    var d2 := Device(Parts([p, ToPart(second.req)], 2), true);
    assert d1.recipe.list + [ToPart(second.req)] == d2.recipe.list;
    assert Step(g, d1, second) == (d2, Ret(0));
    var d1' := Device(Parts([], 1), true);
    assert Step(g, d1, DelPart(0)).0 == d1';
    var d2' := Device(Parts([ToPart(second.req)], 2), true);
    assert d2.recipe.list[..0] + d2.recipe.list[1..] == d2'.recipe.list;
    assert Step(g, d2, DelPart(0)).0 == d2';
    RunCons(g, Device(EMPTY, false), Open, [first, DelPart(0)]);
    RunCons(g, d0, first, [DelPart(0)]);
    RunCons(g, d1, DelPart(0), []);
    RunCons(g, Device(EMPTY, false), Open, [first, second, DelPart(0)]);
    RunCons(g, d0, first, [second, DelPart(0)]);
    RunCons(g, d1, second, [DelPart(0)]);
    RunCons(g, d2, DelPart(0), []);
    assert Convert(d2'.recipe, true).1 == [Entry(ToPart(second.req)), ZEROED];
  }

  // ----- the intended counter -----

  /** The calls with a delete that also decrements `parts_count`. */
  function StepCounting(g: Geometry, d: Device, op: Op): (Device, Outcome) {
    var (d', out) := Step(g, d, op);
    if op.DelPart? && out == Ret(0) && d'.recipe.count > 0
    then (d'.(recipe := Parts(d'.recipe.list, d'.recipe.count - 1)), out)
    else (d', out)
  }

  function RunCounting(g: Geometry, d: Device, ops: seq<Op>): Device
    decreases |ops|
  {
    if ops == [] then d else RunCounting(g, StepCounting(g, d, ops[0]).0, ops[1..])
  }

  lemma {:induction false} RunCounts(g: Geometry, d: Device, ops: seq<Op>)
    requires d.recipe.count == |d.recipe.list|
    ensures var r := RunCounting(g, d, ops).recipe; r.count == |r.list|
    decreases |ops|
  {
    if ops != [] {
      RunCounts(g, StepCounting(g, d, ops[0]).0, ops[1..]);
    }
  }

  /** With the decrement the array is exactly the recipe after every run, and the BUG_ON is unreachable. */
  lemma PublishWithDecrement(g: Geometry, ops: seq<Op>, memory: bool)
    ensures var r := RunCounting(g, Device(EMPTY, false), ops).recipe;
            var (out, parts) := Convert(r, memory);
            && out.Ret?
            && (out == Ret(EINVAL) <==> r.list == [])
            && (out == Ret(0) ==> parts == Entries(r.list))
  {
    RunCounts(g, Device(EMPTY, false), ops);
  }

  // ----- listing -----

  /** struct ext_mtd_partition_info as LIST_RECIPE_PARTS fills it. */
  function Info(p: Part): Request {
    Request(p.offset, p.length, p.name, !p.writable, p.powerupLock)
  }

  function Infos(list: seq<Part>): (r: seq<Request>)
    ensures |r| == |list|
  {
    seq(|list|, i requires 0 <= i < |list| => Info(list[i]))
  }

  /** The stored name is the C string cut to 127 bytes, then only NULs, and storing it again changes nothing. */
  lemma StoredNameMeaning(name: Name)
    ensures CString(StoredName(name)) == if CLength(name) < NAME_MAX then CString(name) else name[..NAME_MAX - 1]
    ensures forall i :: 0 <= i < NAME_MAX && (CLength(name) <= i || i == NAME_MAX - 1) ==> StoredName(name)[i] == 0
    ensures StoredName(StoredName(name)) == StoredName(name)
  {
    var stored := StoredName(name);
    var n := if CLength(name) < NAME_MAX then CLength(name) else NAME_MAX - 1;
    assert stored[n] == 0;
    assert forall i :: 0 <= i < n ==> stored[i] == name[i] != 0;
    assert CLength(stored) == n;
    assert stored[..n] == name[..n];
  }

  /** Add then list gives the request back, its name cut; adding a listed part again stores the same part. */
  lemma AddListRoundTrip(req: Request)
    ensures Info(ToPart(req)) == req.(name := StoredName(req.name))
    ensures ToPart(Info(ToPart(req))) == ToPart(req)
  {
    StoredNameMeaning(req.name);
  }
}
