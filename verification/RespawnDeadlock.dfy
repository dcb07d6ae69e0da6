/**
 * The lock-order deadlock between LIST_RECIPE_PARTS, which takes the proxy lock
 * first, and a respawn, which takes the recipe lock first: when the two calls
 * can reach it, and that nothing gets them out.
 */
module RespawnDeadlock {
  import opened Kernel
  import opened Flash
  import opened Recipe
  import opened Respawn
  import opened RespawnInvariant
  import opened RespawnSafety
  import opened RespawnProgress

  lemma DeadlockHolds(g: Geometry, s: State, t: Tid, u: Tid)
    requires Inv(g, s) && Deadlocked(s, t, u)
    ensures s.proxyLock == Some(t) && s.recipeLock == Some(u)
    ensures !CanAdvance(s, t) && !CanAdvance(s, u)
  {
    assert ThreadOk(s, t) && ThreadOk(s, u);
  }

  lemma DeadlockStep(g: Geometry, s: State, t: Tid, u: Tid, a: Action)
    requires Inv(g, s) && Deadlocked(s, t, u) && Enabled(s, a)
    ensures Deadlocked(Do(g, s, a), t, u)
  {
    DeadlockHolds(g, s, t, u);
    if a.Advance? {
      Forward(g, s, a);
    }
  }

  /** The pair never gets out of it, whatever the other threads do. */
  lemma {:induction false} DeadlockPermanent(g: Geometry, s: State, t: Tid, u: Tid, acts: seq<Action>)
    requires Inv(g, s) && Deadlocked(s, t, u) && Legal(g, s, acts)
    ensures Deadlocked(Exec(g, s, acts), t, u)
    decreases |acts|
  {
    if acts != [] {
      StepInv(g, s, acts[0]);
      DeadlockStep(g, s, t, u, acts[0]);
      DeadlockPermanent(g, Do(g, s, acts[0]), t, u, acts[1..]);
    }
  }

  /** The states of a two-thread run from boot. */
  function Boot(pcs: seq<Pc>): State {
    State(None, None, false, 0, multiset{}, Nodes(map[], [], 0), Registered([], 0), pcs)
  }

  const ANSWER := Given(0, 0, Unregistered)

  function Listing(pcs: seq<Pc>): State {
    Boot(pcs).(proxyLock := Some(0))
  }

  function Crossed(): State {
    Listing([ListRecipeLock, FlagLock(NOTHING)]).(recipeLock := Some(1))
  }

  lemma RespawnHalf(g: Geometry)
    ensures var s := Listing([ListRecipeLock, Idle]);
            var acts := [Begin(1, DeletePartitions)] + ([Advance(1, ANSWER)] + []);
            Legal(g, s, acts) && Exec(g, s, acts) == Crossed()
  {
    var s := Listing([ListRecipeLock, Idle]);
    var s' := Listing([ListRecipeLock, RespawnLock(false)]);
    assert Do(g, s, Begin(1, DeletePartitions)) == s';
    assert Do(g, s', Advance(1, ANSWER)) == Crossed();
    Runs(g, s', Advance(1, ANSWER), Crossed(), [], Crossed());
    Runs(g, s, Begin(1, DeletePartitions), s', [Advance(1, ANSWER)] + [], Crossed());
  }

  /** Two threads, a LIST_RECIPE_PARTS and a DELETE_MTD_PARTITIONS, reach it from boot. */
  lemma DeadlockReachable(g: Geometry)
    ensures exists s :: Reachable(g, s) && Deadlocked(s, 0, 1) && AtRest(s)
  {
    var acts := [Begin(1, DeletePartitions)] + ([Advance(1, ANSWER)] + []);
    var step := Advance(0, ANSWER);
    var s0, s1 := Boot([Idle, Idle]), Boot([ListLock, Idle]);
    var s2, s3 := Listing([ListTest, Idle]), Listing([ListRecipeLock, Idle]);
    RespawnHalf(g);
    assert Do(g, s2, step) == s3;
    Runs(g, s2, step, s3, acts, Crossed());
    assert Do(g, s1, step) == s2;
    Runs(g, s1, step, s2, [step] + acts, Crossed());
    assert Do(g, s0, Begin(0, ListRecipe)) == s1;
    Runs(g, s0, Begin(0, ListRecipe), s1, [step] + ([step] + acts), Crossed());
    assert Initial(s0);
    assert Reachable(g, Crossed());
    assert Deadlocked(Crossed(), 0, 1) && AtRest(Crossed());
  }

  // ----- exactly when the two calls can cross -----

  /** The two calls have begun in a state with no other call in flight. */
  function Paired(s: State, t: Tid, u: Tid, create: bool): State
    requires At(s, t) && At(s, u)
  {
    s.(pcs := s.pcs[t := ListLock][u := RespawnLock(create)])
  }

  ghost predicate CanDeadlock(g: Geometry, s: State, t: Tid, u: Tid) {
    exists acts :: Legal(g, s, acts) && OnlyAdvances(acts) && Deadlocked(Exec(g, s, acts), t, u)
  }

  ghost predicate AllIdle(s: State) {
    forall v: Tid :: At(s, v) ==> s.pcs[v].Idle?
  }

  /** The list takes the proxy lock and sees no respawn; the rest of a run follows. */
  lemma ListHalf(g: Geometry, s: State, t: Tid, u: Tid, create: bool, given: Given, acts: seq<Action>)
    requires At(s, t) && At(s, u) && t != u && s.proxyLock == None && !s.aboutToRespawn
    requires given.code == 0 && given.node !in s.nodes.heap
    requires var s' := LockProxy(Paired(s, t, u, create), t, ListRecipeLock);
             Legal(g, s', acts) && OnlyAdvances(acts) && Deadlocked(Exec(g, s', acts), t, u)
    ensures CanDeadlock(g, Paired(s, t, u, create), t, u)
  {
    var s1 := Paired(s, t, u, create);
    var s3 := LockProxy(s1, t, ListRecipeLock);
    var a := Advance(t, given);
    ListSteps(g, s1, t, given);
    Runs(g, LockProxy(s1, t, ListTest), a, s3, acts, Exec(g, s3, acts));
    Runs(g, s1, a, LockProxy(s1, t, ListTest), [a] + acts, Exec(g, s3, acts));
    assert OnlyAdvances([a] + ([a] + acts));
  }

  lemma ListSteps(g: Geometry, s: State, t: Tid, given: Given)
    requires At(s, t) && s.pcs[t] == ListLock && s.proxyLock == None && !s.aboutToRespawn
    requires given.code == 0 && given.node !in s.nodes.heap
    ensures var a, s' := Advance(t, given), LockProxy(s, t, ListTest);
            && Enabled(s, a) && Do(g, s, a) == s'
            && Enabled(s', a) && Do(g, s', a) == LockProxy(s, t, ListRecipeLock)
  {
    var s' := LockProxy(s, t, ListTest);
    assert s'.pcs[t := ListRecipeLock] == s.pcs[t := ListRecipeLock];
  }

  /** Then the respawn takes the recipe lock and comes for the proxy lock. */
  lemma RespawnFollows(g: Geometry, s: State, t: Tid, u: Tid, create: bool, given: Given) returns (acts: seq<Action>)
    requires At(s, t) && At(s, u) && t != u && s.recipeLock == None
    requires s.pcs[t] == ListRecipeLock && s.pcs[u] == RespawnLock(create)
    requires given.code == 0 && given.node !in s.nodes.heap
    requires create ==> s.nodes.list != [] && s.nodes.count > 0
    ensures Legal(g, s, acts) && OnlyAdvances(acts) && Deadlocked(Exec(g, s, acts), t, u)
  {
    var a := Advance(u, given);
    var s1 := LockRecipe(s, u, if create then Converting else FlagLock(NOTHING));
    assert Do(g, s, a) == s1;
    acts := [];
    if create {
      var s2 := Goto(s1, u, FlagLock(Job(true, s.nodes.list, s.nodes.count)));
      assert Do(g, s1, a) == s2;
      Runs(g, s1, a, s2, [], s2);
      acts := [a] + [];
    }
    Runs(g, s, a, s1, acts, Exec(g, s1, acts));
    acts := [a] + acts;
  }

  /** What is in flight when a create finds an empty list: nobody ever comes for the flag. */
  predicate Harmless(pc: Pc) {
    pc.Idle? || ListPc(pc) || pc == RespawnLock(true) || pc.Converting? || pc.RespawnUnlock? || pc.Stopped?
  }

  ghost predicate Barren(s: State) {
    s.nodes.list == [] && forall v: Tid :: At(s, v) ==> Harmless(s.pcs[v])
  }

  lemma BarrenStep(g: Geometry, s: State, a: Action)
    requires Barren(s) && Enabled(s, a) && a.Advance?
    ensures Barren(Do(g, s, a))
  {
    Forward(g, s, a);
    NodesKept(g, s, a);
    var s' := Do(g, s, a);
    assert Harmless(s'.pcs[a.t]);
  }

  lemma {:induction false} BarrenRun(g: Geometry, s: State, acts: seq<Action>)
    requires Barren(s) && Legal(g, s, acts) && OnlyAdvances(acts)
    ensures Barren(Exec(g, s, acts))
    decreases |acts|
  {
    if acts != [] {
      BarrenStep(g, s, acts[0]);
      BarrenRun(g, Do(g, s, acts[0]), acts[1..]);
    }
  }

  /**
   * The exact condition: a list and a respawn begun in any quiet reachable state
   * can be scheduled into the deadlock if and only if the respawn is a delete
   * or a create of a recipe that has parts.
   */
  lemma DeadlockIff(g: Geometry, s: State, t: Tid, u: Tid, create: bool)
    requires Reachable(g, s) && AllIdle(s) && At(s, t) && At(s, u) && t != u
    ensures CanDeadlock(g, Paired(s, t, u, create), t, u) <==> (!create || s.nodes.list != [])
  {
    ReachableInv(g, s);
    FlagClearedOnExit(g, s, t);
    var s1 := Paired(s, t, u, create);
    if !create || s.nodes.list != [] {
      var node := FreeNode(s.nodes.heap);
      var given := Given(0, node, s.table);
      var s3 := LockProxy(s1, t, ListRecipeLock);
      var acts := RespawnFollows(g, s3, t, u, create, given);
      ListHalf(g, s, t, u, create, given, acts);
    } else {
      assert Barren(s1);
      forall acts | Legal(g, s1, acts) && OnlyAdvances(acts)
        ensures !Deadlocked(Exec(g, s1, acts), t, u)
      {
        BarrenRun(g, s1, acts);
      }
    }
  }
}
