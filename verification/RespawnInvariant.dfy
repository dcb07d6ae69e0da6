/**
 * The inductive invariant of the respawn protocol.
 */
module RespawnInvariant {
  import opened Kernel
  import opened Flash
  import opened Recipe
  import opened Respawn

  predicate HoldsProxy(pc: Pc) {
    || pc.GetTest? || pc.GetCount? || pc.GetUnlock? || pc.PutCount? || pc.PutUnlock?
    || pc.EditTest? || pc.EditRun? || pc.EditUnlock? || pc.WalkTest? || pc.WalkRun? || pc.WalkUnlock?
    || pc.ListTest? || pc.ListRecipeLock? || pc.ListRun? || pc.ListRecipeUnlock? || pc.ListUnlock?
    || pc.FlagWrite? || pc.FlagUnlock? || pc.ClearWrite? || pc.ClearUnlock?
    || pc == Stopped(PutUnderflow)
  }

  predicate HoldsRecipe(pc: Pc) {
    || pc.ListRun? || pc.ListRecipeUnlock? || pc.ChangeRun? || pc.ChangeUnlock?
    || pc.Converting? || HasJob(pc) || pc.RespawnUnlock?
    || (pc.Stopped? && pc.stop != PutUnderflow)
  }

  /** The published array exists. */
  predicate HasJob(pc: Pc) {
    || pc.FlagLock? || pc.FlagWrite? || pc.ClearUnlock? || pc.FreeArray? || FlagUp(pc)
  }

  /** Between the two writes of `about_to_respawn`. */
  predicate FlagUp(pc: Pc) {
    || pc.FlagUnlock? || pc.BugTest? || pc.ReadCount? || pc.Unregister? || pc.Register?
    || pc.ClearLock? || pc.ClearWrite?
  }

  /** From the unlocked read that found no user until the flag is cleared. */
  predicate Quiet(pc: Pc) {
    pc.Unregister? || pc.Register? || (pc.ClearLock? && pc.quiet) || (pc.ClearWrite? && pc.quiet)
  }

  /** The flag was found clear under the proxy lock, which is still held. */
  predicate SawFlagClear(pc: Pc) {
    || pc.GetCount? || pc.EditRun? || pc.WalkRun?
    || pc.ListRecipeLock? || pc.ListRun? || pc.ListRecipeUnlock?
  }

  predicate JobOk(n: Nodes, job: Job) {
    job == if job.create then Job(true, n.list, n.count) else NOTHING
  }

  /** A respawn that is about to report success has put its job into the table. */
  predicate ResultOk(s: State, job: Job, quiet: bool, ret: int) {
    && (ret == 0 ==> s.table == Registered(Read(s.nodes.heap, job.names), job.entries))
    && (!quiet ==> ret == EBUSY)
  }

  /** A call about to release the proxy lock: whether it was let in, and with what code it is turned away. */
  predicate AnswerOk(s: State, pc: Pc) {
    match pc
    case GetUnlock(ret) => ret == if s.aboutToRespawn then EBUSY else 0
    case EditUnlock(ran, ret) => (ran <==> !s.aboutToRespawn && s.useRefcnt == 0) && (!ran ==> ret == EBUSY)
    case WalkUnlock(ran, ret) => (ran <==> !s.aboutToRespawn) && (!ran ==> ret == EBUSY)
    case ListUnlock(ran, ret) => (ran <==> !s.aboutToRespawn) && (!ran ==> ret == EBUSY)
    case _ => true
  }

  /** What a thread at `pc` relies on in the shared fields. */
  predicate PcOk(s: State, t: Tid, pc: Pc) {
    && (FlagUp(pc) ==> s.aboutToRespawn)
    && (SawFlagClear(pc) ==> !s.aboutToRespawn)
    && (Quiet(pc) || pc.EditRun? ==> s.useRefcnt == 0)
    && (pc.PutLock? || pc.PutCount? ==> t in s.held)
    && (pc.Stopped? ==> pc.stop == EmptyPublish)
    && (HasJob(pc) ==> JobOk(s.nodes, pc.job))
    && AnswerOk(s, pc)
    && (pc.Register? ==> s.table == Unregistered)
    && (pc.ClearLock? || pc.ClearWrite? ==> ResultOk(s, pc.job, pc.quiet, pc.ret))
  }

  predicate ThreadOk(s: State, t: Tid)
    requires t < |s.pcs|
  {
    && (HoldsProxy(s.pcs[t]) <==> s.proxyLock == Some(t))
    && (HoldsRecipe(s.pcs[t]) <==> s.recipeLock == Some(t))
    && PcOk(s, t, s.pcs[t])
  }

  /** The allocated nodes are exactly the linked ones, each linked once. */
  predicate NodesOk(n: Nodes) {
    && n.heap.Keys == Members(n.list)
    && forall i, j :: 0 <= i < j < |n.list| ==> n.list[i] != n.list[j]
  }

  /** The locks, the flag and the counter. */
  predicate Protocol(s: State) {
    && (forall t :: 0 <= t < |s.pcs| ==> ThreadOk(s, t))
    && (s.proxyLock.Some? ==> s.proxyLock.value < |s.pcs|)
    && (s.recipeLock.Some? ==> s.recipeLock.value < |s.pcs|)
    && (s.aboutToRespawn ==> s.recipeLock.Some? && FlagUp(s.pcs[s.recipeLock.value]))
    && s.useRefcnt == |s.held|
  }

  predicate Inv(g: Geometry, s: State) {
    Protocol(s) && NodesOk(s.nodes) && Valid(g, View(s.nodes))
  }

  // ----- the recipe's nodes -----

  lemma ChangeAdd(g: Geometry, n: Nodes, req: Request, memory: bool, node: nat)
    requires NodesOk(n) && Valid(g, View(n)) && node !in n.heap
    ensures var n' := Change(g, n, AddPart(req, memory), node).0;
            NodesOk(n') && View(n') == Add(g, View(n), req, memory).0
  {
    AddMeaning(g, View(n), req, memory);
    AddNode(n, node, ToPart(req));
  }

  /**
   * On nodes, a change is the call of the recipe model, in state and outcome;
   * no node leaks and none is freed twice.
   */
  lemma ChangeMeaning(g: Geometry, n: Nodes, op: Op, node: nat)
    requires NodesOk(n) && Valid(g, View(n)) && node !in n.heap
    ensures var (n', out) := Change(g, n, op, node);
            var (d', out') := Step(g, Device(View(n), false), op);
            NodesOk(n') && View(n') == d'.recipe && out == out'
  {
    match op {
      case AddPart(req, memory) => ChangeAdd(g, n, req, memory, node);
      case DelPart(index) =>
        if index < |n.list| {
          DelNode(n, index);
        }
      case _ =>
    }
  }

  lemma AddNode(n: Nodes, node: nat, part: Part)
    requires NodesOk(n) && node !in n.heap
    ensures var n' := Nodes(n.heap[node := part], n.list + [node], n.count + 1);
            NodesOk(n') && View(n') == Parts(View(n).list + [part], n.count + 1)
  {
    var n' := Nodes(n.heap[node := part], n.list + [node], n.count + 1);
    assert forall i :: 0 <= i < |n.list| ==> n.list[i] in Members(n.list);
    assert View(n').list == View(n).list + [part];
    assert Members(n'.list) == Members(n.list) + {node};
  }

  lemma DelNode(n: Nodes, index: nat)
    requires NodesOk(n) && index < |n.list|
    ensures var list' := n.list[..index] + n.list[index + 1..];
            var n' := Nodes(n.heap - {n.list[index]}, list', n.count);
            NodesOk(n') && View(n').list == View(n).list[..index] + View(n).list[index + 1..]
  {
    var list' := n.list[..index] + n.list[index + 1..];
    UnlinkedMembers(n.list, index);
    assert forall i :: 0 <= i < |list'| ==> list'[i] == n.list[if i < index then i else i + 1];
    ReadAfterFree(n.heap, n.list, index);
  }

  lemma ReadAfterFree(heap: map<nat, Part>, list: seq<nat>, index: nat)
    requires index < |list|
    requires forall i, j :: 0 <= i < j < |list| ==> list[i] != list[j]
    ensures Read(heap - {list[index]}, list[..index] + list[index + 1..]) ==
            Read(heap, list)[..index] + Read(heap, list)[index + 1..]
  {
  }

  lemma UnlinkedMembers(list: seq<nat>, index: nat)
    requires index < |list|
    requires forall i, j :: 0 <= i < j < |list| ==> list[i] != list[j]
    ensures Members(list[..index] + list[index + 1..]) == Members(list) - {list[index]}
  {
    var list' := list[..index] + list[index + 1..];
    assert forall i :: 0 <= i < |list'| ==> list'[i] == list[if i < index then i else i + 1];
    forall id | id in list && id != list[index]
      ensures id in list'
    {
      var i :| 0 <= i < |list| && list[i] == id;
      assert list'[if i < index then i else i - 1] == id;
    }
  }

  // ----- preservation, one kind of step at a time -----

  lemma InitialInv(g: Geometry, s: State)
    requires Initial(s)
    ensures Inv(g, s)
  {
  }

  predicate SameHold(pc: Pc, pc': Pc) {
    HoldsProxy(pc) == HoldsProxy(pc') && HoldsRecipe(pc) == HoldsRecipe(pc') && FlagUp(pc) == FlagUp(pc')
  }

  lemma GotoInv(s: State, t: Tid, pc: Pc)
    requires Protocol(s) && t < |s.pcs|
    requires SameHold(s.pcs[t], pc) && PcOk(s, t, pc)
    ensures Protocol(Goto(s, t, pc))
  {
    var s' := Goto(s, t, pc);
    assert ThreadOk(s, t);
    forall u | 0 <= u < |s'.pcs|
      ensures ThreadOk(s', u)
    {
      assert ThreadOk(s, u);
    }
  }

  lemma LockProxyInv(s: State, t: Tid, pc: Pc)
    requires Protocol(s) && t < |s.pcs|
    requires s.proxyLock == None && HoldsProxy(pc) && PcOk(s, t, pc)
    requires HoldsRecipe(s.pcs[t]) == HoldsRecipe(pc) && FlagUp(s.pcs[t]) == FlagUp(pc)
    ensures Protocol(LockProxy(s, t, pc))
  {
    var s' := LockProxy(s, t, pc);
    assert ThreadOk(s, t);
    forall u | 0 <= u < |s'.pcs|
      ensures ThreadOk(s', u)
    {
      assert ThreadOk(s, u);
    }
  }

  lemma UnlockProxyInv(s: State, t: Tid, pc: Pc)
    requires Protocol(s) && t < |s.pcs|
    requires HoldsProxy(s.pcs[t]) && !HoldsProxy(pc) && PcOk(s, t, pc)
    requires HoldsRecipe(s.pcs[t]) == HoldsRecipe(pc) && FlagUp(s.pcs[t]) == FlagUp(pc)
    ensures Protocol(UnlockProxy(s, t, pc))
  {
    var s' := UnlockProxy(s, t, pc);
    assert ThreadOk(s, t);
    forall u | 0 <= u < |s'.pcs|
      ensures ThreadOk(s', u)
    {
      assert ThreadOk(s, u);
    }
  }

  lemma LockRecipeInv(s: State, t: Tid, pc: Pc)
    requires Protocol(s) && t < |s.pcs|
    requires s.recipeLock == None && HoldsRecipe(pc) && PcOk(s, t, pc)
    requires HoldsProxy(s.pcs[t]) == HoldsProxy(pc) && !FlagUp(pc)
    ensures Protocol(LockRecipe(s, t, pc))
  {
    var s' := LockRecipe(s, t, pc);
    assert ThreadOk(s, t);
    forall u | 0 <= u < |s'.pcs|
      ensures ThreadOk(s', u)
    {
      assert ThreadOk(s, u);
    }
  }

  lemma UnlockRecipeInv(s: State, t: Tid, pc: Pc)
    requires Protocol(s) && t < |s.pcs|
    requires HoldsRecipe(s.pcs[t]) && !HoldsRecipe(pc) && PcOk(s, t, pc)
    requires HoldsProxy(s.pcs[t]) == HoldsProxy(pc) && !FlagUp(s.pcs[t])
    ensures Protocol(UnlockRecipe(s, t, pc))
  {
    var s' := UnlockRecipe(s, t, pc);
    assert ThreadOk(s, t);
    forall u | 0 <= u < |s'.pcs|
      ensures ThreadOk(s', u)
    {
      assert ThreadOk(s, u);
    }
  }

  /** A get that saw the flag clear runs before any flag can be set: the lock is held. */
  lemma CountUpInv(s: State, t: Tid)
    requires Protocol(s) && t < |s.pcs|
    requires s.pcs[t].GetCount?
    ensures Protocol(StepUser(s, t))
  {
    var s' := StepUser(s, t);
    assert ThreadOk(s, t);
    forall u | 0 <= u < |s'.pcs|
      ensures ThreadOk(s', u)
    {
      assert ThreadOk(s, u);
    }
  }

  lemma CountDownInv(s: State, t: Tid)
    requires Protocol(s) && t < |s.pcs|
    requires s.pcs[t].PutCount?
    ensures Protocol(StepUser(s, t))
  {
    var s' := StepUser(s, t);
    assert ThreadOk(s, t);
    forall u | 0 <= u < |s'.pcs|
      ensures ThreadOk(s', u)
    {
      assert ThreadOk(s, u);
    }
  }

  /** Setting the flag takes both locks, so nobody is past a flag test. */
  lemma RaiseInv(s: State, t: Tid, code: int)
    requires Protocol(s) && t < |s.pcs|
    requires s.pcs[t].FlagWrite?
    ensures Protocol(StepRespawn(s, t, code))
  {
    var s' := StepRespawn(s, t, code);
    assert ThreadOk(s, t);
    forall u | 0 <= u < |s'.pcs|
      ensures ThreadOk(s', u)
    {
      assert ThreadOk(s, u);
    }
  }

  /** Only the respawner that set the flag is here to clear it. */
  lemma ClearInv(s: State, t: Tid, code: int)
    requires Protocol(s) && t < |s.pcs|
    requires s.pcs[t].ClearWrite?
    ensures Protocol(StepRespawn(s, t, code))
  {
    var s' := StepRespawn(s, t, code);
    assert ThreadOk(s, t);
    forall u | 0 <= u < |s'.pcs|
      ensures ThreadOk(s', u)
    {
      assert ThreadOk(s, u);
    }
  }

  /** An edit ends under the proxy lock with the flag clear, so no respawn relies on the table. */
  lemma EditRunInv(s: State, t: Tid, given: Given)
    requires Protocol(s) && t < |s.pcs|
    requires s.pcs[t].EditRun?
    ensures Protocol(StepTable(s, t, given))
  {
    var s' := StepTable(s, t, given);
    assert ThreadOk(s, t);
    forall u | 0 <= u < |s'.pcs|
      ensures ThreadOk(s', u)
    {
      assert ThreadOk(s, u);
    }
  }

  /** Only the respawner touches the table while the flag is up. */
  lemma CoreCallInv(s: State, t: Tid, code: int)
    requires Protocol(s) && t < |s.pcs|
    requires s.pcs[t].Unregister? || s.pcs[t].Register?
    ensures Protocol(StepRespawn(s, t, code))
  {
    var s' := StepRespawn(s, t, code);
    assert ThreadOk(s, t);
    forall u | 0 <= u < |s'.pcs|
      ensures ThreadOk(s', u)
    {
      assert ThreadOk(s, u);
    }
  }

  /** The recipe changes only under its lock, so no published array exists. */
  lemma ChangeRunInv(g: Geometry, s: State, t: Tid, node: nat)
    requires Inv(g, s) && t < |s.pcs|
    requires s.pcs[t].ChangeRun? && node !in s.nodes.heap
    ensures Inv(g, StepChange(g, s, t, node))
  {
    var s' := StepChange(g, s, t, node);
    ChangeMeaning(g, s.nodes, s.pcs[t].op, node);
    StepValid(g, Device(View(s.nodes), false), s.pcs[t].op);
    assert ThreadOk(s, t);
    forall u | 0 <= u < |s'.pcs|
      ensures ThreadOk(s', u)
    {
      assert ThreadOk(s, u);
    }
  }

  lemma BeginInv(s: State, t: Tid, call: Call)
    requires Protocol(s) && Enabled(s, Begin(t, call))
    ensures Protocol(Goto(s, t, Entry(call)))
  {
    GotoInv(s, t, Entry(call));
  }

  lemma HandOverInv(s: State, t: Tid, u: Tid)
    requires Protocol(s) && Enabled(s, HandOver(t, u))
    ensures Protocol(s.(held := s.held - multiset{t} + multiset{u}))
  {
    var s' := s.(held := s.held - multiset{t} + multiset{u});
    forall v | 0 <= v < |s'.pcs|
      ensures ThreadOk(s', v)
    {
      assert ThreadOk(s, v);
    }
  }

  predicate PutPc(pc: Pc) {
    pc.PutLock? || pc.PutCount? || pc.PutUnlock?
  }

  lemma PutInv(s: State, t: Tid)
    requires Protocol(s) && CanAdvance(s, t) && PutPc(s.pcs[t])
    ensures Protocol(StepUser(s, t))
  {
    assert ThreadOk(s, t);
    match s.pcs[t]
    case PutLock => LockProxyInv(s, t, PutCount);
    case PutCount => CountDownInv(s, t);
    case PutUnlock => UnlockProxyInv(s, t, Idle);
  }

  lemma UserInv(s: State, t: Tid)
    requires Protocol(s) && CanAdvance(s, t) && UserPc(s.pcs[t])
    ensures Protocol(StepUser(s, t))
  {
    assert ThreadOk(s, t);
    match s.pcs[t]
    case GetLock => LockProxyInv(s, t, GetTest);
    case GetTest => GotoInv(s, t, if s.aboutToRespawn then GetUnlock(EBUSY) else GetCount);
    case GetCount => CountUpInv(s, t);
    case GetUnlock(_) => UnlockProxyInv(s, t, Idle);
    case _ => PutInv(s, t);
  }

  predicate EditPc(pc: Pc) {
    pc.EditLock? || pc.EditTest? || pc.EditRun? || pc.EditUnlock?
  }

  lemma EditInv(s: State, t: Tid, given: Given)
    requires Protocol(s) && CanAdvance(s, t) && EditPc(s.pcs[t])
    ensures Protocol(StepTable(s, t, given))
  {
    assert ThreadOk(s, t);
    match s.pcs[t]
    case EditLock(edit) => LockProxyInv(s, t, EditTest(edit));
    case EditTest(edit) =>
      GotoInv(s, t, if s.aboutToRespawn || s.useRefcnt != 0 then EditUnlock(false, EBUSY) else EditRun(edit));
    case EditRun(_) => EditRunInv(s, t, given);
    case EditUnlock(_, _) => UnlockProxyInv(s, t, Idle);
  }

  predicate WalkPc(pc: Pc) {
    pc.WalkLock? || pc.WalkTest? || pc.WalkRun? || pc.WalkUnlock?
  }

  lemma WalkInv(s: State, t: Tid, given: Given)
    requires Protocol(s) && CanAdvance(s, t) && WalkPc(s.pcs[t])
    ensures Protocol(StepTable(s, t, given))
  {
    assert ThreadOk(s, t);
    match s.pcs[t]
    case WalkLock => LockProxyInv(s, t, WalkTest);
    case WalkTest => GotoInv(s, t, if s.aboutToRespawn then WalkUnlock(false, EBUSY) else WalkRun);
    case WalkRun => GotoInv(s, t, WalkUnlock(true, given.code));
    case WalkUnlock(_, _) => UnlockProxyInv(s, t, Idle);
  }

  /** The thread is in LIST_RECIPE_PARTS. */
  predicate ListPc(pc: Pc) {
    pc.ListLock? || pc.ListTest? || pc.ListRecipeLock? || pc.ListRun? || pc.ListRecipeUnlock? || pc.ListUnlock?
  }

  lemma ListInv(s: State, t: Tid, given: Given)
    requires Protocol(s) && CanAdvance(s, t) && ListPc(s.pcs[t])
    ensures Protocol(StepTable(s, t, given))
  {
    assert ThreadOk(s, t);
    match s.pcs[t]
    case ListLock => LockProxyInv(s, t, ListTest);
    case ListTest => GotoInv(s, t, if s.aboutToRespawn then ListUnlock(false, EBUSY) else ListRecipeLock);
    case ListUnlock(_, _) => UnlockProxyInv(s, t, Idle);
    case _ => ListUnderRecipeLock(s, t, given);
  }

  lemma ListUnderRecipeLock(s: State, t: Tid, given: Given)
    requires Protocol(s) && CanAdvance(s, t)
    requires s.pcs[t].ListRecipeLock? || s.pcs[t].ListRun? || s.pcs[t].ListRecipeUnlock?
    ensures Protocol(StepTable(s, t, given))
  {
    assert ThreadOk(s, t);
    match s.pcs[t]
    case ListRecipeLock => LockRecipeInv(s, t, ListRun);
    case ListRun => GotoInv(s, t, ListRecipeUnlock(given.code));
    case ListRecipeUnlock(ret) => UnlockRecipeInv(s, t, ListUnlock(true, ret));
  }

  lemma TableInv(s: State, t: Tid, given: Given)
    requires Protocol(s) && CanAdvance(s, t) && TablePc(s.pcs[t])
    ensures Protocol(StepTable(s, t, given))
  {
    if EditPc(s.pcs[t]) {
      EditInv(s, t, given);
    } else if WalkPc(s.pcs[t]) {
      WalkInv(s, t, given);
    } else {
      ListInv(s, t, given);
    }
  }

  lemma ChangeInv(g: Geometry, s: State, t: Tid, node: nat)
    requires Inv(g, s) && CanAdvance(s, t) && ChangePc(s.pcs[t]) && node !in s.nodes.heap
    ensures Inv(g, StepChange(g, s, t, node))
  {
    match s.pcs[t]
    case ChangeLock(op) => LockRecipeInv(s, t, ChangeRun(op));
    case ChangeRun(_) => ChangeRunInv(g, s, t, node);
    case ChangeUnlock(_) => UnlockRecipeInv(s, t, Idle);
  }

  /** The steps that take or drop a lock. */
  predicate LockStep(pc: Pc) {
    || pc.RespawnLock? || pc.RespawnUnlock? || pc.FlagLock? || pc.FlagUnlock? || pc.ClearLock? || pc.ClearUnlock?
  }

  lemma RespawnLockInv(s: State, t: Tid, code: int)
    requires Protocol(s) && CanAdvance(s, t) && LockStep(s.pcs[t])
    ensures Protocol(StepRespawn(s, t, code))
  {
    assert ThreadOk(s, t);
    match s.pcs[t]
    case RespawnLock(create) => LockRecipeInv(s, t, if create then Converting else FlagLock(NOTHING));
    case RespawnUnlock(_) => UnlockRecipeInv(s, t, Idle);
    case _ => RespawnProxyInv(s, t, code);
  }

  lemma RespawnProxyInv(s: State, t: Tid, code: int)
    requires Protocol(s) && CanAdvance(s, t) && LockStep(s.pcs[t])
    requires !s.pcs[t].RespawnLock? && !s.pcs[t].RespawnUnlock?
    ensures Protocol(StepRespawn(s, t, code))
  {
    assert ThreadOk(s, t);
    match s.pcs[t]
    case FlagLock(job) => LockProxyInv(s, t, FlagWrite(job));
    case FlagUnlock(job) => UnlockProxyInv(s, t, BugTest(job));
    case ClearLock(job, quiet, ret) => LockProxyInv(s, t, ClearWrite(job, quiet, ret));
    case ClearUnlock(job, ret) => UnlockProxyInv(s, t, FreeArray(job, ret));
  }

  lemma RespawnInv(s: State, t: Tid, code: int)
    requires Protocol(s) && CanAdvance(s, t) && RespawnPc(s.pcs[t])
    ensures Protocol(StepRespawn(s, t, code))
  {
    if LockStep(s.pcs[t]) {
      RespawnLockInv(s, t, code);
    } else if s.pcs[t].FlagWrite? {
      RaiseInv(s, t, code);
    } else if s.pcs[t].ClearWrite? {
      ClearInv(s, t, code);
    } else if s.pcs[t].Unregister? || s.pcs[t].Register? {
      CoreCallInv(s, t, code);
    } else {
      assert ThreadOk(s, t);
      GotoInv(s, t, StepRespawn(s, t, code).pcs[t]);
    }
  }

  lemma AdvanceInv(g: Geometry, s: State, a: Action)
    requires Inv(g, s) && Enabled(s, a) && a.Advance?
    ensures Inv(g, Do(g, s, a))
  {
    if UserPc(s.pcs[a.t]) {
      UserInv(s, a.t);
    } else if TablePc(s.pcs[a.t]) {
      TableInv(s, a.t, a.given);
    } else if ChangePc(s.pcs[a.t]) {
      ChangeInv(g, s, a.t, a.given.node);
    } else {
      RespawnInv(s, a.t, a.given.code);
    }
  }

  /** Every action of every thread keeps the invariant. */
  lemma StepInv(g: Geometry, s: State, a: Action)
    requires Inv(g, s) && Enabled(s, a)
    ensures Inv(g, Do(g, s, a))
  {
    match a
    case Begin(t, call) => BeginInv(s, t, call);
    case HandOver(t, u) => HandOverInv(s, t, u);
    case Advance(_, _) => AdvanceInv(g, s, a);
  }

  lemma {:induction false} RunInv(g: Geometry, s: State, acts: seq<Action>)
    requires Inv(g, s) && Legal(g, s, acts)
    ensures Inv(g, Exec(g, s, acts))
    decreases |acts|
  {
    if acts != [] {
      StepInv(g, s, acts[0]);
      RunInv(g, Do(g, s, acts[0]), acts[1..]);
    }
  }

  lemma ReachableInv(g: Geometry, s: State)
    requires Reachable(g, s)
    ensures Inv(g, s)
  {
    var s0, acts :| Initial(s0) && Legal(g, s0, acts) && Exec(g, s0, acts) == s;
    InitialInv(g, s0);
    RunInv(g, s0, acts);
  }
}
