/**
 * What LIST_RECIPE_PARTS gives back after any run: the requests whose adds
 * succeeded and that no later delete or restart took away, in order.
 */
module Listing {
  import opened Kernel
  import opened Flash
  import opened Recipe
  import opened Publication
  import opened Batch
  import opened Respawn
  import opened RespawnInvariant
  import opened RespawnSafety

  /** A client's own record of the recipe, kept from the codes its calls return. */
  function Keep(kept: seq<Request>, op: Op, out: Outcome): seq<Request> {
    if out != Ret(0) then kept else
    match op
    case Open => []
    case Restart => []
    case AddPart(req, _) => kept + [req]
    case DelPart(index) => if index < |kept| then kept[..index] + kept[index + 1..] else kept
    case Release => kept
  }

  function Remember(kept: seq<Request>, ops: seq<Op>, outs: seq<Outcome>): seq<Request>
    requires |ops| == |outs|
    decreases |ops|
  {
    if ops == [] then kept else Remember(Keep(kept, ops[0], outs[0]), ops[1..], outs[1..])
  }

  lemma KeepStored(g: Geometry, d: Device, kept: seq<Request>, op: Op)
    requires Valid(g, d.recipe) && d.recipe.list == Stored(kept)
    ensures var (d', out) := Step(g, d, op); d'.recipe.list == Stored(Keep(kept, op, out))
  {
    match op
    case AddPart(req, memory) => AddMeaning(g, d.recipe, req, memory);
    case _ =>
  }

  /** Over every run, whatever is refused, deleted or restarted, the list is the client's record as stored. */
  lemma {:induction false} RunListing(g: Geometry, d: Device, kept: seq<Request>, ops: seq<Op>)
    requires Valid(g, d.recipe) && d.recipe.list == Stored(kept)
    ensures |Outcomes(g, d, ops)| == |ops|
    ensures Run(g, d, ops).recipe.list == Stored(Remember(kept, ops, Outcomes(g, d, ops)))
    decreases |ops|
  {
    if ops != [] {
      var (d', out) := Step(g, d, ops[0]);
      KeepStored(g, d, kept, ops[0]);
      StepValid(g, d, ops[0]);
      RunListing(g, d', Keep(kept, ops[0], out), ops[1..]);
      assert Outcomes(g, d, ops)[1..] == Outcomes(g, d', ops[1..]);
    }
  }

  /** The requests a listing of `requested` items shows, names as stored. */
  function Shown(kept: seq<Request>, requested: U32): (r: seq<Request>)
    ensures |r| == if requested < |kept| then requested else |kept|
  {
    seq(if requested < |kept| then requested else |kept|,
        i requires 0 <= i < |kept| => kept[i].(name := StoredName(kept[i].name)))
  }

  lemma ShownStored(kept: seq<Request>, requested: U32)
    ensures Infos(Stored(kept))[..|Shown(kept, requested)|] == Shown(kept, requested)
  {
  }

  /**
   * The add/list round trip after any run from a fresh device: a listing shows
   * the first min(requested, actual) requests of the client's record, in
   * insertion order, equal to what was asked for but for the stored name.
   */
  lemma ListAfterRun(g: Geometry, ops: seq<Op>, requested: U32)
    ensures var d := Device(EMPTY, false);
            var list := Run(g, d, ops).recipe.list;
            |Outcomes(g, d, ops)| == |ops| &&
            var kept := Remember([], ops, Outcomes(g, d, ops));
            && |list| == |kept|
            && Infos(list)[..if requested < |list| then requested else |list|] == Shown(kept, requested)
  {
    var d := Device(EMPTY, false);
    RunListing(g, d, [], ops);
    ShownStored(Remember([], ops, Outcomes(g, d, ops)), requested);
  }

  /** The entry a client asked for: its own range and name, each flag exactly as requested. */
  predicate Serves(e: MtdPartition, req: Request) {
    && e.name == Some(StoredName(req.name)) && e.probes
    && e.offset == req.offset && e.size == req.length
    && e.maskFlags == (if req.readonly then {Writeable} else {})
    && e.addFlags == (if req.powerupLock then {PowerupLock} else {})
  }

  /**
   * What a create publishes after any run from a fresh device, from the
   * client's own record: entry i serves the i-th remembered request, and the
   * entries past the record, one for each delete since the last restart, are
   * all zero.
   */
  lemma PublishedRequests(g: Geometry, ops: seq<Op>, memory: bool)
    ensures var d := Device(EMPTY, false);
            var (out, parts) := Convert(Run(g, d, ops).recipe, memory);
            |Outcomes(g, d, ops)| == |ops| &&
            var kept := Remember([], ops, Outcomes(g, d, ops));
            out == Ret(0) ==>
              && |parts| == |kept| + Recall(g, d, FRESH, ops).dels
              && (forall i :: 0 <= i < |kept| ==> Serves(parts[i], kept[i]))
              && (forall i :: |kept| <= i < |parts| ==>
                    parts[i].name == None && !parts[i].probes && parts[i].offset == 0 == parts[i].size
                    && parts[i].maskFlags == {} == parts[i].addFlags)
  {
    RunListing(g, Device(EMPTY, false), [], ops);
    PublishAfterRun(g, ops, memory);
    var r := Run(g, Device(EMPTY, false), ops).recipe;
    var parts := Convert(r, memory).1;
    assert Convert(r, memory).0 == Ret(0) ==> forall i :: 0 <= i < |r.list| ==> parts[i] == parts[..|r.list|][i];
  }

  lemma {:induction false} AcceptedRemembered(g: Geometry, d: Device, kept: seq<Request>, reqs: seq<Request>)
    requires Valid(g, d.recipe) && AllAccepted(g, d, reqs)
    ensures |Outcomes(g, d, Adds(reqs))| == |reqs|
    ensures Remember(kept, Adds(reqs), Outcomes(g, d, Adds(reqs))) == kept + reqs
    decreases |reqs|
  {
    if reqs == [] {
      assert kept + reqs == kept;
    } else {
      var ops := Adds(reqs);
      var (d', out) := Step(g, d, ops[0]);
      assert ops[0] == AddPart(reqs[0], true) && ops[1..] == Adds(reqs[1..]);
      AcceptedStep(g, d, reqs);
      StepValid(g, d, ops[0]);
      AcceptedRemembered(g, d', kept + [reqs[0]], reqs[1..]);
      assert Outcomes(g, d, ops)[1..] == Outcomes(g, d', ops[1..]);
      assert (kept + [reqs[0]]) + reqs[1..] == kept + reqs;
    }
  }

  /** A batch accepted in full lists back whole, in order. */
  lemma BatchListing(g: Geometry, reqs: seq<Request>)
    requires AllAccepted(g, Device(EMPTY, true), reqs)
    ensures var infos := Infos(Run(g, Device(EMPTY, true), Adds(reqs)).recipe.list);
            && |infos| == |reqs|
            && forall i :: 0 <= i < |reqs| ==> infos[i] == reqs[i].(name := StoredName(reqs[i].name))
  {
    var d := Device(EMPTY, true);
    RunListing(g, d, [], Adds(reqs));
    AcceptedRemembered(g, d, [], reqs);
    assert [] + reqs == reqs;
  }

  /** The same under concurrency: the list is the record of the calls in lock order, by the codes callers carried away. */
  lemma ListUnderConcurrency(g: Geometry, s: State, acts: seq<Action>)
    requires Initial(s) && Legal(g, s, acts)
    ensures |Codes(g, s, acts)| == |Changes(g, s, acts)|
    ensures View(Exec(g, s, acts).nodes).list == Stored(Remember([], Changes(g, s, acts), Codes(g, s, acts)))
  {
    ConcurrentRecipe(g, s, acts);
    RunListing(g, Device(EMPTY, false), [], Changes(g, s, acts));
  }
}
