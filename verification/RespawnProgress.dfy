/**
 * Progress of the respawn protocol: every call that has begun finishes in a
 * bounded number of steps, unless a list and a respawn cross their two locks.
 */
module RespawnProgress {
  import opened Kernel
  import opened Flash
  import opened Recipe
  import opened Respawn
  import opened RespawnInvariant
  import opened RespawnSafety

  /** A bound on the steps a thread's call still has to take. */
  function Rank(pc: Pc): nat {
    match pc
    case Idle => 0
    case Stopped(_) => 0
    case GetLock => 4 case GetTest => 3 case GetCount => 2 case GetUnlock(_) => 1
    case PutLock => 3 case PutCount => 2 case PutUnlock => 1
    case EditLock(_) => 4 case EditTest(_) => 3 case EditRun(_) => 2 case EditUnlock(_, _) => 1
    case WalkLock => 4 case WalkTest => 3 case WalkRun => 2 case WalkUnlock(_, _) => 1
    case ListLock => 6 case ListTest => 5 case ListRecipeLock => 4
    case ListRun => 3 case ListRecipeUnlock(_) => 2 case ListUnlock(_, _) => 1
    case ChangeLock(_) => 3 case ChangeRun(_) => 2 case ChangeUnlock(_) => 1
    case RespawnLock(_) => 14 case Converting => 13
    case FlagLock(_) => 12 case FlagWrite(_) => 11 case FlagUnlock(_) => 10
    case BugTest(_) => 9 case ReadCount(_) => 8
    case Unregister(_) => 7 case Register(_) => 6
    case ClearLock(_, _, _) => 5 case ClearWrite(_, _, _) => 4 case ClearUnlock(_, _) => 3
    case FreeArray(_, _) => 2 case RespawnUnlock(_) => 1
  }

  function Work(pcs: seq<Pc>): nat {
    if pcs == [] then 0 else Rank(pcs[0]) + Work(pcs[1..])
  }

  lemma {:induction false} WorkUpdate(pcs: seq<Pc>, t: nat, pc: Pc)
    requires t < |pcs|
    ensures Work(pcs[t := pc]) == Work(pcs) - Rank(pcs[t]) + Rank(pc)
  {
    if t == 0 {
      assert pcs[t := pc][1..] == pcs[1..];
    } else {
      assert pcs[t := pc][1..] == pcs[1..][t - 1 := pc];
      WorkUpdate(pcs[1..], t - 1, pc);
    }
  }

  predicate IoctlPc(pc: Pc) {
    !pc.Idle? && !UserPc(pc) && pc != Stopped(PutUnderflow)
  }

  /** Only the stepping thread moves, and it moves forward. */
  predicate MovesForward(s: State, s': State, t: Tid) {
    && At(s, t) && |s'.pcs| == |s.pcs|
    && s'.pcs == s.pcs[t := s'.pcs[t]]
    && Rank(s'.pcs[t]) < Rank(s.pcs[t])
    && (IoctlPc(s'.pcs[t]) ==> IoctlPc(s.pcs[t]))
    && (ListPc(s'.pcs[t]) ==> ListPc(s.pcs[t]))
    && (RespawnPc(s'.pcs[t]) ==> RespawnPc(s.pcs[t]))
  }

  lemma PutForward(s: State, t: Tid)
    requires CanAdvance(s, t) && PutPc(s.pcs[t])
    ensures MovesForward(s, StepUser(s, t), t)
  {
  }

  lemma UserForward(s: State, t: Tid)
    requires CanAdvance(s, t) && UserPc(s.pcs[t])
    ensures MovesForward(s, StepUser(s, t), t)
  {
    if PutPc(s.pcs[t]) {
      PutForward(s, t);
    }
  }

  lemma TableForward(s: State, t: Tid, given: Given)
    requires CanAdvance(s, t) && TablePc(s.pcs[t])
    ensures MovesForward(s, StepTable(s, t, given), t)
  {
  }

  lemma ChangeForward(g: Geometry, s: State, t: Tid, node: nat)
    requires CanAdvance(s, t) && ChangePc(s.pcs[t])
    ensures MovesForward(s, StepChange(g, s, t, node), t)
  {
  }

  lemma LockForward(s: State, t: Tid, code: int)
    requires CanAdvance(s, t) && LockStep(s.pcs[t])
    ensures MovesForward(s, StepRespawn(s, t, code), t)
  {
  }

  lemma RespawnForward(s: State, t: Tid, code: int)
    requires CanAdvance(s, t) && RespawnPc(s.pcs[t])
    ensures MovesForward(s, StepRespawn(s, t, code), t)
  {
    if LockStep(s.pcs[t]) {
      LockForward(s, t, code);
    }
  }

  lemma Forward(g: Geometry, s: State, a: Action)
    requires Enabled(s, a) && a.Advance?
    ensures MovesForward(s, Do(g, s, a), a.t)
  {
    if UserPc(s.pcs[a.t]) {
      UserForward(s, a.t);
    } else if TablePc(s.pcs[a.t]) {
      TableForward(s, a.t, a.given);
    } else if ChangePc(s.pcs[a.t]) {
      ChangeForward(g, s, a.t, a.given.node);
    } else {
      RespawnForward(s, a.t, a.given.code);
    }
  }

  ghost predicate OnlyAdvances(acts: seq<Action>) {
    forall i :: 0 <= i < |acts| ==> acts[i].Advance?
  }

  /** Calls in flight take at most `Work` further steps, under any scheduler. */
  lemma {:induction false} BoundedWork(g: Geometry, s: State, acts: seq<Action>)
    requires Legal(g, s, acts) && OnlyAdvances(acts)
    ensures |acts| + Work(Exec(g, s, acts).pcs) <= Work(s.pcs)
    decreases |acts|
  {
    if acts != [] {
      var a, s' := acts[0], Do(g, s, acts[0]);
      Forward(g, s, a);
      WorkUpdate(s.pcs, a.t, s'.pcs[a.t]);
      BoundedWork(g, Do(g, s, acts[0]), acts[1..]);
    }
  }

  // ----- what it takes to be stuck -----

  /** One thread lists the recipe and waits for its lock, another respawns and waits for the proxy lock. */
  predicate Deadlocked(s: State, t: Tid, u: Tid) {
    At(s, t) && At(s, u) && s.pcs[t].ListRecipeLock? && s.pcs[u].FlagLock?
  }

  predicate Busy(pc: Pc) {
    !pc.Idle? && !pc.Stopped?
  }

  /** No step of a call in flight is enabled, whatever the kernel would answer. */
  ghost predicate AtRest(s: State) {
    forall a: Action :: a.Advance? ==> !Enabled(s, a)
  }

  lemma FreeNode(heap: map<nat, Part>) returns (node: nat)
    ensures node !in heap
  {
    node := 0;
    var seen: set<nat> := {};
    while node in heap
      invariant seen <= heap.Keys && forall n :: n in seen <==> 0 <= n < node
      decreases heap.Keys - seen
    {
      seen := seen + {node};
      node := node + 1;
    }
  }

  /** At rest every thread is idle, stopped or waiting for a lock that is held: an allocator never runs out of names. */
  lemma RestBlocks(s: State, t: Tid)
    requires AtRest(s)
    ensures !CanAdvance(s, t)
  {
    if CanAdvance(s, t) {
      var node := FreeNode(s.nodes.heap);
      assert Enabled(s, Advance(t, Given(0, node, s.table)));
    }
  }

  lemma BlockedOnProxy(g: Geometry, s: State, t: Tid) returns (p: Tid)
    requires Inv(g, s) && AtRest(s) && At(s, t) && WantsProxy(s.pcs[t])
    ensures s.proxyLock == Some(p) && At(s, p) && s.pcs[p].ListRecipeLock?
    ensures !s.aboutToRespawn && s.recipeLock.Some? && At(s, s.recipeLock.value)
  {
    RestBlocks(s, t);
    p := s.proxyLock.value;
    assert ThreadOk(s, p);
    RestBlocks(s, p);
  }

  lemma BlockedOnRecipe(g: Geometry, s: State, t: Tid) returns (r: Tid)
    requires Inv(g, s) && AtRest(s) && At(s, t) && WantsRecipe(s.pcs[t])
    ensures s.recipeLock == Some(r) && At(s, r) && r != t && IoctlPc(s.pcs[r])
    ensures s.pcs[r].Stopped? || (Busy(s.pcs[r]) && WantsProxy(s.pcs[r]))
  {
    RestBlocks(s, t);
    r := s.recipeLock.value;
    assert ThreadOk(s, t) && ThreadOk(s, r);
    RestBlocks(s, r);
  }

  lemma StuckInv(g: Geometry, s: State, t: Tid)
    requires Inv(g, s) && AtRest(s) && At(s, t) && Busy(s.pcs[t])
    ensures (exists v: Tid :: At(s, v) && s.pcs[v] == Stopped(EmptyPublish))
            || (exists p: Tid, r: Tid :: Deadlocked(s, p, r))
  {
    RestBlocks(s, t);
    var p: Tid, r: Tid;
    if WantsProxy(s.pcs[t]) {
      p := BlockedOnProxy(g, s, t);
      r := BlockedOnRecipe(g, s, p);
    } else {
      r := BlockedOnRecipe(g, s, t);
      if !s.pcs[r].Stopped? {
        p := BlockedOnProxy(g, s, r);
      }
    }
    assert ThreadOk(s, r);
    if !s.pcs[r].Stopped? {
      assert ThreadOk(s, p);
      assert Deadlocked(s, p, r);
    }
  }

  /**
   * In every reachable state some call in flight can step, unless none is left,
   * a thread has stopped at the empty-publish BUG_ON, or the list/respawn pair
   * is deadlocked. There is no other way to be stuck.
   */
  lemma StuckMeans(g: Geometry, s: State, t: Tid)
    requires Reachable(g, s) && AtRest(s) && At(s, t) && Busy(s.pcs[t])
    ensures (exists v: Tid :: At(s, v) && s.pcs[v] == Stopped(EmptyPublish))
            || (exists p: Tid, r: Tid :: Deadlocked(s, p, r))
  {
    ReachableInv(g, s);
    StuckInv(g, s, t);
  }

  // ----- any number of ioctls, but no list beside a respawn -----

  /** No LIST_RECIPE_PARTS is in flight together with a respawn. */
  ghost predicate NoPair(s: State) {
    forall t: Tid, u: Tid :: At(s, t) && At(s, u) ==> !(ListPc(s.pcs[t]) && RespawnPc(s.pcs[u]))
  }

  lemma {:induction false} NoPairRun(g: Geometry, s: State, acts: seq<Action>)
    requires NoPair(s) && Legal(g, s, acts) && OnlyAdvances(acts)
    ensures NoPair(Exec(g, s, acts))
    decreases |acts|
  {
    if acts != [] {
      var a, s' := acts[0], Do(g, s, acts[0]);
      Forward(g, s, a);
      assert forall t: Tid :: At(s', t) ==> At(s, t) && (ListPc(s'.pcs[t]) ==> ListPc(s.pcs[t]))
                                            && (RespawnPc(s'.pcs[t]) ==> RespawnPc(s.pcs[t]));
      NoPairRun(g, s', acts[1..]);
    }
  }

  /**
   * Any number of ioctls and proxy users finish as long as no list is in flight
   * together with a respawn: every run of the calls in flight that cannot be
   * extended is at most `Work` steps long and ends with every call returned, or
   * with a thread stopped at the empty-publish BUG_ON.
   */
  lemma CallsFinishUnpaired(g: Geometry, s: State, acts: seq<Action>)
    requires Reachable(g, s) && NoPair(s) && Legal(g, s, acts) && OnlyAdvances(acts)
    requires AtRest(Exec(g, s, acts))
    ensures |acts| <= Work(s.pcs)
    ensures var s' := Exec(g, s, acts);
            || (forall t: Tid :: At(s', t) ==> s'.pcs[t] == Idle)
            || (exists t: Tid :: At(s', t) && s'.pcs[t] == Stopped(EmptyPublish))
  {
    BoundedWork(g, s, acts);
    ReachableInv(g, s);
    RunInv(g, s, acts);
    NoPairRun(g, s, acts);
    RestUnpaired(g, Exec(g, s, acts));
  }

  lemma RestUnpaired(g: Geometry, s: State)
    requires Inv(g, s) && AtRest(s) && NoPair(s)
    ensures (forall t: Tid :: At(s, t) ==> s.pcs[t] == Idle)
            || (exists t: Tid :: At(s, t) && s.pcs[t] == Stopped(EmptyPublish))
  {
    if t: Tid :| At(s, t) && s.pcs[t] != Idle {
      assert ThreadOk(s, t);
      if Busy(s.pcs[t]) {
        StuckInv(g, s, t);
      }
    }
  }

  // ----- one ioctl at a time -----

  /** Any number of proxy users, but at most one ioctl in flight. */
  ghost predicate OneIoctl(s: State) {
    forall t: Tid, u: Tid :: At(s, t) && At(s, u) && IoctlPc(s.pcs[t]) && IoctlPc(s.pcs[u]) ==> t == u
  }

  lemma {:induction false} OneIoctlRun(g: Geometry, s: State, acts: seq<Action>)
    requires OneIoctl(s) && Legal(g, s, acts) && OnlyAdvances(acts)
    ensures OneIoctl(Exec(g, s, acts)) && |Exec(g, s, acts).pcs| == |s.pcs|
    decreases |acts|
  {
    if acts != [] {
      var a, s' := acts[0], Do(g, s, acts[0]);
      Forward(g, s, a);
      assert forall t: Tid :: At(s', t) && IoctlPc(s'.pcs[t]) ==> At(s, t) && IoctlPc(s.pcs[t]);
      OneIoctlRun(g, s', acts[1..]);
    }
  }

  /**
   * With one ioctl in flight and any number of users, every run of the calls in
   * flight that cannot be extended is at most `Work` steps long and ends with
   * every call returned, or stopped at the empty-publish BUG_ON.
   */
  lemma CallsFinish(g: Geometry, s: State, acts: seq<Action>)
    requires Reachable(g, s) && OneIoctl(s) && Legal(g, s, acts) && OnlyAdvances(acts)
    requires AtRest(Exec(g, s, acts))
    ensures |acts| <= Work(s.pcs)
    ensures var s' := Exec(g, s, acts);
            forall t: Tid :: At(s', t) ==> s'.pcs[t] == Idle || s'.pcs[t] == Stopped(EmptyPublish)
  {
    BoundedWork(g, s, acts);
    ReachableInv(g, s);
    RunInv(g, s, acts);
    OneIoctlRun(g, s, acts);
    var s' := Exec(g, s, acts);
    forall t: Tid | At(s', t)
      ensures s'.pcs[t] == Idle || s'.pcs[t] == Stopped(EmptyPublish)
    {
      assert ThreadOk(s', t);
      if Busy(s'.pcs[t]) {
        RestBlocks(s', t);
        AloneNotBlocked(g, s', t);
      }
    }
  }

  lemma AloneNotBlocked(g: Geometry, s: State, t: Tid)
    requires Inv(g, s) && AtRest(s) && OneIoctl(s) && At(s, t)
    ensures !WantsProxy(s.pcs[t]) && !WantsRecipe(s.pcs[t])
  {
    if WantsProxy(s.pcs[t]) {
      var p := BlockedOnProxy(g, s, t);
      var r := BlockedOnRecipe(g, s, p);
    } else if WantsRecipe(s.pcs[t]) {
      var r := BlockedOnRecipe(g, s, t);
    }
  }
}
