/**
 * What the respawn protocol guarantees in every reachable state and over every
 * run, for any number of threads and any interleaving.
 */
module RespawnSafety {
  import opened Kernel
  import opened Flash
  import opened Recipe
  import opened Publication
  import opened Respawn
  import opened RespawnInvariant

  predicate At(s: State, t: Tid) {
    t < |s.pcs|
  }

  /** The thread is using or rebuilding the partition table. */
  predicate InTable(pc: Pc) {
    pc.EditRun? || pc.WalkRun? || pc.Unregister? || pc.Register?
  }

  /**
   * Table exclusion: at most one thread edits, walks or respawns the partition
   * table, although a respawn holds no proxy lock while it does so; and every
   * edit or respawn runs with no reference held by anyone.
   */
  lemma TableExclusion(g: Geometry, s: State, t: Tid, u: Tid)
    requires Reachable(g, s) && At(s, t) && InTable(s.pcs[t])
    ensures At(s, u) && InTable(s.pcs[u]) ==> t == u
    ensures !s.pcs[t].WalkRun? ==> s.useRefcnt == 0 && s.held == multiset{}
  {
    ReachableInv(g, s);
    assert ThreadOk(s, t);
    if At(s, u) && InTable(s.pcs[u]) {
      assert ThreadOk(s, u);
    }
  }

  /**
   * The flag is up exactly while one thread, the owner of the recipe lock, is
   * between its two writes of the flag.
   */
  lemma FlagOwner(g: Geometry, s: State)
    requires Reachable(g, s)
    ensures s.aboutToRespawn <==> exists t: Tid :: At(s, t) && FlagUp(s.pcs[t])
    ensures forall t: Tid, u: Tid :: At(s, t) && At(s, u) && FlagUp(s.pcs[t]) && FlagUp(s.pcs[u]) ==> t == u
    ensures forall t: Tid :: At(s, t) && FlagUp(s.pcs[t]) ==> s.recipeLock == Some(t)
  {
    ReachableInv(g, s);
    assert forall t: Tid :: At(s, t) ==> ThreadOk(s, t);
  }

  /** Whichever way a respawn ends, it leaves the flag clear; with no call in flight both locks are free. */
  lemma FlagClearedOnExit(g: Geometry, s: State, t: Tid)
    requires Reachable(g, s) && At(s, t)
    ensures s.pcs[t].FreeArray? || s.pcs[t].RespawnUnlock? ==> !s.aboutToRespawn
    ensures (forall u: Tid :: At(s, u) ==> s.pcs[u].Idle?) ==>
            !s.aboutToRespawn && s.proxyLock == None && s.recipeLock == None
  {
    ReachableInv(g, s);
    assert ThreadOk(s, t);
    if s.proxyLock.Some? {
      assert ThreadOk(s, s.proxyLock.value);
    }
    if s.recipeLock.Some? {
      assert ThreadOk(s, s.recipeLock.value);
    }
  }

  // ----- respawn safety over a whole window -----

  /** The get that takes a reference, and the put that drops one. */
  predicate Takes(s: State, a: Action) {
    a.Advance? && At(s, a.t) && s.pcs[a.t].GetCount?
  }

  predicate Drops(s: State, a: Action) {
    a.Advance? && At(s, a.t) && s.pcs[a.t].PutCount? && s.useRefcnt != 0
  }

  function Taken(g: Geometry, s: State, acts: seq<Action>): nat
    requires Legal(g, s, acts)
    decreases |acts|
  {
    if acts == [] then 0 else (if Takes(s, acts[0]) then 1 else 0) + Taken(g, Do(g, s, acts[0]), acts[1..])
  }

  function Dropped(g: Geometry, s: State, acts: seq<Action>): nat
    requires Legal(g, s, acts)
    decreases |acts|
  {
    if acts == [] then 0 else (if Drops(s, acts[0]) then 1 else 0) + Dropped(g, Do(g, s, acts[0]), acts[1..])
  }

  /** Thread t is in its quiet window before and after every action. */
  predicate StaysQuiet(g: Geometry, s: State, t: Tid, acts: seq<Action>)
    requires Legal(g, s, acts)
    decreases |acts|
  {
    && At(s, t) && Quiet(s.pcs[t])
    && (acts == [] || StaysQuiet(g, Do(g, s, acts[0]), t, acts[1..]))
  }

  lemma {:induction false} QuietRun(g: Geometry, s: State, t: Tid, acts: seq<Action>)
    requires Inv(g, s) && Legal(g, s, acts) && StaysQuiet(g, s, t, acts)
    ensures Taken(g, s, acts) == 0 && Dropped(g, s, acts) == 0
    ensures Exec(g, s, acts).useRefcnt == 0 && Exec(g, s, acts).aboutToRespawn
    decreases |acts|
  {
    assert ThreadOk(s, t);
    if acts != [] {
      if acts[0].Advance? {
        assert ThreadOk(s, acts[0].t);
      }
      StepInv(g, s, acts[0]);
      QuietRun(g, Do(g, s, acts[0]), t, acts[1..]);
    }
  }

  /**
   * Respawn safety: from the unlocked read that found no user until the flag is
   * cleared, the counter stays zero and no reference is taken, whatever the
   * other threads do. So unregister and register never run under a user.
   */
  lemma RespawnSafe(g: Geometry, s: State, t: Tid, acts: seq<Action>)
    requires Reachable(g, s) && Legal(g, s, acts) && StaysQuiet(g, s, t, acts)
    ensures Taken(g, s, acts) == 0
    ensures Exec(g, s, acts).useRefcnt == 0 && Exec(g, s, acts).held == multiset{}
  {
    ReachableInv(g, s);
    QuietRun(g, s, t, acts);
    RunInv(g, s, acts);
  }

  // ----- references -----

  lemma CountStep(g: Geometry, s: State, a: Action)
    requires Enabled(s, a)
    ensures Do(g, s, a).useRefcnt ==
            s.useRefcnt + (if Takes(s, a) then 1 else 0) - (if Drops(s, a) then 1 else 0)
  {
  }

  lemma {:induction false} CountRun(g: Geometry, s: State, acts: seq<Action>)
    requires Legal(g, s, acts)
    ensures Exec(g, s, acts).useRefcnt == s.useRefcnt + Taken(g, s, acts) - Dropped(g, s, acts)
    decreases |acts|
  {
    if acts != [] {
      CountStep(g, s, acts[0]);
      CountRun(g, Do(g, s, acts[0]), acts[1..]);
    }
  }

  /**
   * Conservation: after any run the counter is the gets that were granted minus
   * the puts, a refused get counts for nothing, and it is the number of
   * references callers own.
   */
  lemma References(g: Geometry, s: State, acts: seq<Action>)
    requires Initial(s) && Legal(g, s, acts)
    ensures var s' := Exec(g, s, acts);
            s'.useRefcnt == Taken(g, s, acts) - Dropped(g, s, acts) == |s'.held|
  {
    InitialInv(g, s);
    RunInv(g, s, acts);
    CountRun(g, s, acts);
  }

  /**
   * With balanced callers the counter's BUG_ONs are unreachable: a thread that
   * stopped at a BUG_ON did so publishing an emptied recipe, still holding the
   * recipe lock.
   */
  lemma OnlyStop(g: Geometry, s: State, t: Tid)
    requires Reachable(g, s) && At(s, t) && s.pcs[t].Stopped?
    ensures s.pcs[t] == Stopped(EmptyPublish) && s.recipeLock == Some(t)
  {
    ReachableInv(g, s);
    assert ThreadOk(s, t);
  }

  // ----- the recipe under concurrency -----

  /** What the MTD core reads through the published array's name pointers. */
  function Published(s: State, job: Job): seq<Part> {
    Read(s.nodes.heap, job.names)
  }

  /**
   * Alias lifetime: as long as a published array exists, every name in it
   * belongs to an allocated node, and the array still describes the recipe.
   */
  lemma AliasLifetime(g: Geometry, s: State, t: Tid)
    requires Reachable(g, s) && At(s, t) && HasJob(s.pcs[t])
    ensures var job := s.pcs[t].job;
            && (forall i :: 0 <= i < |job.names| ==> job.names[i] in s.nodes.heap)
            && Published(s, job) == (if job.create then View(s.nodes).list else [])
            && job.entries == (if job.create then s.nodes.count else 0)
  {
    ReachableInv(g, s);
    assert ThreadOk(s, t);
    assert forall i :: 0 <= i < |s.nodes.list| ==> s.nodes.list[i] in Members(s.nodes.list);
  }

  /**
   * What a respawn reports: when it is about to clear the flag with success,
   * the table holds exactly the recipe (nothing, for a delete), under as many
   * entries as `parts_count` says. It reports -EBUSY if it never got that far.
   */
  lemma ReportedSuccess(g: Geometry, s: State, t: Tid)
    requires Reachable(g, s) && At(s, t) && (s.pcs[t].ClearLock? || s.pcs[t].ClearWrite?)
    ensures var job := s.pcs[t].job;
            s.pcs[t].ret == 0 ==>
              s.table == if job.create then Registered(View(s.nodes).list, s.nodes.count) else Registered([], 0)
    ensures !s.pcs[t].quiet ==> s.pcs[t].ret == EBUSY
  {
    ReachableInv(g, s);
    assert ThreadOk(s, t);
  }

  /** The recipe calls of a run, in the order their critical sections ran; open's part is its restart. */
  function Changes(g: Geometry, s: State, acts: seq<Action>): seq<Op>
    requires Legal(g, s, acts)
    decreases |acts|
  {
    if acts == [] then [] else
    var rest := Changes(g, Do(g, s, acts[0]), acts[1..]);
    if acts[0].Advance? && s.pcs[acts[0].t].ChangeRun? then
      [if s.pcs[acts[0].t].op.Open? then Restart else s.pcs[acts[0].t].op] + rest
    else rest
  }

  /** The outcome a caller carries away from its critical section. */
  function Carried(pc: Pc): Outcome {
    match pc
    case ChangeUnlock(ret) => Ret(ret)
    case Stopped(Overlap(bug)) => BugOn(bug)
    case _ => Ret(0)
  }

  /** The outcomes of the recipe calls of a run, in the same order. */
  function Codes(g: Geometry, s: State, acts: seq<Action>): seq<Outcome>
    requires Legal(g, s, acts)
    decreases |acts|
  {
    if acts == [] then [] else
    var s' := Do(g, s, acts[0]);
    var rest := Codes(g, s', acts[1..]);
    if acts[0].Advance? && s.pcs[acts[0].t].ChangeRun? then [Carried(s'.pcs[acts[0].t])] + rest else rest
  }

  lemma NodesKept(g: Geometry, s: State, a: Action)
    requires Enabled(s, a) && !(a.Advance? && s.pcs[a.t].ChangeRun?)
    ensures Do(g, s, a).nodes == s.nodes
  {
  }

  /** The recipe changes in one step, inside the critical section, and in no other. */
  lemma ChangeStep(g: Geometry, s: State, a: Action)
    requires Inv(g, s) && Enabled(s, a)
    ensures var s' := Do(g, s, a);
            if a.Advance? && s.pcs[a.t].ChangeRun?
            then var (d, out) := Step(g, Device(View(s.nodes), false), s.pcs[a.t].op);
                 View(s'.nodes) == d.recipe && Carried(s'.pcs[a.t]) == out
            else s'.nodes == s.nodes
  {
    if a.Advance? && s.pcs[a.t].ChangeRun? {
      ChangeMeaning(g, s.nodes, s.pcs[a.t].op, a.given.node);
    } else {
      NodesKept(g, s, a);
    }
  }

  /** A critical section is one call of the sequential run. */
  lemma SerialStep(g: Geometry, s: State, d: Device, acts: seq<Action>)
    requires Inv(g, s) && acts != [] && Legal(g, s, acts) && d.recipe == View(s.nodes)
    requires acts[0].Advance? && s.pcs[acts[0].t].ChangeRun?
    ensures var s' := Do(g, s, acts[0]);
            var op := if s.pcs[acts[0].t].op.Open? then Restart else s.pcs[acts[0].t].op;
            && Changes(g, s, acts) == [op] + Changes(g, s', acts[1..])
            && Codes(g, s, acts) == [Step(g, d, op).1] + Codes(g, s', acts[1..])
            && View(s'.nodes) == Step(g, d, op).0.recipe
  {
    ChangeStep(g, s, acts[0]);
  }

  /**
   * Atomicity: whatever the interleaving, the recipe is what the same calls
   * leave behind when made one after the other, in lock order, and every caller
   * carries away the code of that sequential run. Every theorem about sequential
   * runs therefore holds of the concurrent recipe.
   */
  lemma {:induction false} RecipeSerialises(g: Geometry, s: State, d: Device, acts: seq<Action>)
    requires Inv(g, s) && Legal(g, s, acts) && d.recipe == View(s.nodes)
    ensures View(Exec(g, s, acts).nodes) == Run(g, d, Changes(g, s, acts)).recipe
    ensures Codes(g, s, acts) == Outcomes(g, d, Changes(g, s, acts))
    decreases |acts|
  {
    if acts != [] {
      var a, s' := acts[0], Do(g, s, acts[0]);
      StepInv(g, s, a);
      if a.Advance? && s.pcs[a.t].ChangeRun? {
        var op := if s.pcs[a.t].op.Open? then Restart else s.pcs[a.t].op;
        SerialStep(g, s, d, acts);
        RunCons(g, d, op, Changes(g, s', acts[1..]));
        RecipeSerialises(g, s', Step(g, d, op).0, acts[1..]);
      } else {
        NodesKept(g, s, a);
        RecipeSerialises(g, s', d, acts[1..]);
      }
    }
  }

  /** The same from the start: an interleaved run ends in the recipe of a sequential one, with its codes. */
  lemma ConcurrentRecipe(g: Geometry, s: State, acts: seq<Action>)
    requires Initial(s) && Legal(g, s, acts)
    ensures View(Exec(g, s, acts).nodes) == Run(g, Device(EMPTY, false), Changes(g, s, acts)).recipe
    ensures Codes(g, s, acts) == Outcomes(g, Device(EMPTY, false), Changes(g, s, acts))
  {
    InitialInv(g, s);
    assert View(s.nodes) == EMPTY;
    RecipeSerialises(g, s, Device(EMPTY, false), acts);
  }

  /** The successful adds and deletes of an interleaved run since its last restart. */
  function Tally(g: Geometry, s: State, acts: seq<Action>): History
    requires Legal(g, s, acts)
  {
    Recall(g, Device(EMPTY, false), FRESH, Changes(g, s, acts))
  }

  /**
   * How a conversion under the recipe lock ends, over every interleaving: it is
   * refused if and only if nothing was added since the last restart, and halts
   * if and only if something was and all of it was deleted.
   */
  lemma ConversionEnds(g: Geometry, s0: State, acts: seq<Action>, t: Tid, code: int)
    requires Initial(s0) && Legal(g, s0, acts)
    requires var s := Exec(g, s0, acts); At(s, t) && s.pcs[t].Converting?
    ensures var h, pc := Tally(g, s0, acts), StepRespawn(Exec(g, s0, acts), t, code).pcs[t];
            && (pc == RespawnUnlock(EINVAL) <==> h.adds == 0)
            && (pc == Stopped(EmptyPublish) <==> h.adds > 0 && h.adds == h.dels)
            && (pc == RespawnUnlock(ENOMEM) <==> h.adds > h.dels && code < 0)
            && (pc.FlagLock? <==> h.adds > h.dels && code >= 0)
  {
    ConcurrentRecipe(g, s0, acts);
    RunTallies(g, Device(EMPTY, false), FRESH, Changes(g, s0, acts));
  }
}
