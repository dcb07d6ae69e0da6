/**
 * What a respawn does when it is the only call in flight: with no reference
 * held it rebuilds the table from the recipe, otherwise it changes nothing.
 */
module RespawnEffect {
  import opened Kernel
  import opened Flash
  import opened Recipe
  import opened Respawn
  import opened RespawnInvariant
  import opened RespawnSafety
  import opened RespawnProgress

  /** How a respawn ends: stopped at the BUG_ON, or with a code and a table. */
  datatype Result = Halted | Result(ret: int, table: Table)

  function Respawned(s: State, job: Job): Result {
    if s.useRefcnt != 0 then Result(EBUSY, s.table)
    else Result(0, Registered(Read(s.nodes.heap, job.names), job.entries))
  }

  function Created(s: State): Result {
    if s.nodes.count == 0 then Result(EINVAL, s.table)
    else if s.nodes.list == [] then Halted
    else Respawned(s, Job(true, s.nodes.list, s.nodes.count))
  }

  /** The result of a respawn standing at `pc`, if it runs alone and the kernel calls succeed. */
  function Outlook(s: State, pc: Pc): Result
    requires RespawnPc(pc)
  {
    match pc
    case RespawnLock(create) => if create then Created(s) else Respawned(s, NOTHING)
    case Converting => Created(s)
    case FlagLock(job) => Respawned(s, job)
    case FlagWrite(job) => Respawned(s, job)
    case FlagUnlock(job) => Respawned(s, job)
    case BugTest(job) => Respawned(s, job)
    case ReadCount(job) => Respawned(s, job)
    case Unregister(job) => Result(0, Registered(Read(s.nodes.heap, job.names), job.entries))
    case Register(job) => Result(0, Registered(Read(s.nodes.heap, job.names), job.entries))
    case ClearLock(_, _, ret) => Result(ret, s.table)
    case ClearWrite(_, _, ret) => Result(ret, s.table)
    case ClearUnlock(_, ret) => Result(ret, s.table)
    case FreeArray(_, ret) => Result(ret, s.table)
    case RespawnUnlock(ret) => Result(ret, s.table)
  }

  /** The outlook does not change on the way. */
  predicate Keeps(s: State, s': State, t: Tid)
    requires At(s, t) && At(s', t) && RespawnPc(s.pcs[t])
  {
    && (RespawnPc(s'.pcs[t]) ==> Outlook(s', s'.pcs[t]) == Outlook(s, s.pcs[t]))
    && (!RespawnPc(s'.pcs[t]) ==> s'.pcs[t] == Stopped(EmptyPublish) && Outlook(s, s.pcs[t]) == Halted)
  }

  lemma OutlookLock(s: State, t: Tid)
    requires At(s, t) && LockStep(s.pcs[t]) && !s.pcs[t].RespawnUnlock?
    ensures Keeps(s, StepRespawn(s, t, 0), t)
  {
  }

  predicate CoreStep(pc: Pc) {
    pc.Unregister? || pc.Register? || pc.ReadCount? || pc.BugTest?
  }

  lemma OutlookCore(s: State, t: Tid)
    requires At(s, t) && CoreStep(s.pcs[t]) && s.useRefcnt >= 0
    ensures Keeps(s, StepRespawn(s, t, 0), t)
  {
  }

  lemma OutlookStep(s: State, t: Tid)
    requires At(s, t) && RespawnPc(s.pcs[t]) && !s.pcs[t].RespawnUnlock? && s.useRefcnt >= 0
    ensures Keeps(s, StepRespawn(s, t, 0), t)
  {
    if LockStep(s.pcs[t]) {
      OutlookLock(s, t);
    } else if CoreStep(s.pcs[t]) {
      OutlookCore(s, t);
    }
  }

  predicate EndsAs(s: State, t: Tid, r: Result) {
    && At(s, t)
    && match r
       case Halted => s.pcs[t] == Stopped(EmptyPublish)
       case Result(ret, table) => s.pcs[t] == RespawnUnlock(ret) && s.table == table
  }

  ghost predicate Alone(s: State, t: Tid) {
    At(s, t) && forall u: Tid :: At(s, u) && u != t ==> s.pcs[u].Idle?
  }

  lemma AloneCanAdvance(g: Geometry, s: State, t: Tid)
    requires Inv(g, s) && Alone(s, t) && Busy(s.pcs[t])
    ensures CanAdvance(s, t)
  {
    assert ThreadOk(s, t);
    if s.proxyLock.Some? {
      assert ThreadOk(s, s.proxyLock.value);
    }
    if s.recipeLock.Some? {
      assert ThreadOk(s, s.recipeLock.value);
    }
  }

  lemma {:induction false} AloneRun(g: Geometry, s: State, t: Tid) returns (acts: seq<Action>)
    requires Inv(g, s) && Alone(s, t) && RespawnPc(s.pcs[t])
    ensures Legal(g, s, acts) && Succeeds(t, acts)
    ensures EndsAs(Exec(g, s, acts), t, Outlook(s, s.pcs[t]))
    decreases Rank(s.pcs[t])
  {
    acts := [];
    if !s.pcs[t].RespawnUnlock? {
      AloneCanAdvance(g, s, t);
      var node := FreeNode(s.nodes.heap);
      var a := Advance(t, Given(0, node, s.table));
      var s' := Do(g, s, a);
      OutlookStep(s, t);
      Forward(g, s, a);
      StepInv(g, s, a);
      if RespawnPc(s'.pcs[t]) {
        acts := AloneRun(g, s', t);
      }
      Runs(g, s, a, s', acts, Exec(g, s', acts));
      acts := [a] + acts;
    }
  }

  /**
   * What the driver promises of a respawn. With a reference held it returns
   * -EBUSY and leaves the table alone; with none held it returns 0 and the
   * table is the recipe, or the bare device for a delete. An untouched recipe
   * is refused with -EINVAL, and one emptied by deletes halts at the BUG_ON.
   */
  function Promised(s: State, create: bool): Result {
    var r := View(s.nodes);
    if create && r.count == 0 then Result(EINVAL, s.table)
    else if create && r.list == [] then Halted
    else if s.held != multiset{} then Result(EBUSY, s.table)
    else Result(0, if create then Registered(r.list, r.count) else Registered([], 0))
  }

  lemma PromiseIsOutlook(g: Geometry, s: State, create: bool)
    requires Inv(g, s)
    ensures Promised(s, create) == Outlook(s, RespawnLock(create))
  {
    assert Read(s.nodes.heap, []) == [];
  }

  lemma BeginAlone(g: Geometry, s: State, t: Tid, create: bool)
    requires Inv(g, s) && At(s, t) && forall u: Tid :: At(s, u) ==> s.pcs[u].Idle?
    ensures var s' := Goto(s, t, RespawnLock(create));
            Inv(g, s') && Alone(s', t) && Outlook(s', s'.pcs[t]) == Promised(s, create)
  {
    PromiseIsOutlook(g, s, create);
    BeginInv(s, t, if create then CreatePartitions else DeletePartitions);
  }

  /** Steps of thread t alone, with every allocation and core call succeeding. */
  ghost predicate Succeeds(t: Tid, acts: seq<Action>) {
    forall i :: 0 <= i < |acts| ==> acts[i].Advance? && acts[i].t == t && acts[i].given.code == 0
  }

  /** The inductive core: steps of one thread alone keep to its outlook. */
  lemma {:induction false} EveryRun(g: Geometry, s: State, t: Tid, acts: seq<Action>)
    requires Inv(g, s) && At(s, t) && RespawnPc(s.pcs[t])
    requires Legal(g, s, acts) && Succeeds(t, acts)
    requires var s' := Exec(g, s, acts); At(s', t) && (s'.pcs[t].RespawnUnlock? || s'.pcs[t].Stopped?)
    ensures EndsAs(Exec(g, s, acts), t, Outlook(s, s.pcs[t]))
    decreases |acts|
  {
    if acts != [] {
      var s' := Do(g, s, acts[0]);
      StepInv(g, s, acts[0]);
      Forward(g, s, acts[0]);
      assert acts[1..] == [] || acts[1] == acts[1..][0];
      if !s.pcs[t].RespawnUnlock? {
        OutlookStep(s, t);
        if RespawnPc(s'.pcs[t]) {
          EveryRun(g, s', t, acts[1..]);
        }
      }
    }
  }

  /** A run in which thread t alone makes one respawn call, up to its return. */
  ghost predicate RespawnCall(g: Geometry, s: State, t: Tid, create: bool, acts: seq<Action>) {
    && Legal(g, s, acts)
    && acts != [] && acts[0] == Begin(t, if create then CreatePartitions else DeletePartitions)
    && Succeeds(t, acts[1..])
  }

  /**
   * Every run in which one thread makes a respawn call, no other thread moves
   * and the kernel calls succeed, ends as promised once the call is over. Other
   * calls may be in flight, as long as they stand still.
   */
  lemma RespawnAlways(g: Geometry, s: State, t: Tid, create: bool, acts: seq<Action>)
    requires Reachable(g, s) && At(s, t) && RespawnCall(g, s, t, create, acts)
    requires var s' := Exec(g, s, acts); At(s', t) && (s'.pcs[t].RespawnUnlock? || s'.pcs[t].Stopped?)
    ensures EndsAs(Exec(g, s, acts), t, Promised(s, create))
  {
    ReachableInv(g, s);
    PromiseIsOutlook(g, s, create);
    BeginInv(s, t, if create then CreatePartitions else DeletePartitions);
    EveryRun(g, Do(g, s, acts[0]), t, acts[1..]);
  }

  lemma CallFrom(g: Geometry, s: State, t: Tid, create: bool, acts: seq<Action>)
    requires At(s, t) && s.pcs[t].Idle?
    requires var s' := Goto(s, t, RespawnLock(create)); Legal(g, s', acts) && Succeeds(t, acts)
    ensures var a := Begin(t, if create then CreatePartitions else DeletePartitions);
            && RespawnCall(g, s, t, create, [a] + acts)
            && Exec(g, s, [a] + acts) == Exec(g, Goto(s, t, RespawnLock(create)), acts)
  {
    var a := Begin(t, if create then CreatePartitions else DeletePartitions);
    var s' := Goto(s, t, RespawnLock(create));
    assert Do(g, s, a) == s';
    Runs(g, s, a, s', acts, Exec(g, s', acts));
    assert ([a] + acts)[1..] == acts;
  }

  /** And from any reachable state with no call in flight there is such a run. */
  lemma RespawnAlone(g: Geometry, s: State, t: Tid, create: bool)
    requires Reachable(g, s) && At(s, t) && forall u: Tid :: At(s, u) ==> s.pcs[u].Idle?
    ensures exists acts ::
              RespawnCall(g, s, t, create, acts) && EndsAs(Exec(g, s, acts), t, Promised(s, create))
  {
    ReachableInv(g, s);
    BeginAlone(g, s, t, create);
    var acts := AloneRun(g, Goto(s, t, RespawnLock(create)), t);
    CallFrom(g, s, t, create, acts);
  }
}
