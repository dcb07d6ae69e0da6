/**
 * The respawn protocol as a transition system: any number of threads, each a
 * user of the proxy device or a caller of an ioctl, stepping between the points
 * where a lock is taken, a shared field is read or written, or the MTD core is
 * called. One step of one thread is one transition.
 */
module Respawn {
  import opened Kernel
  import opened Flash
  import opened Recipe

  type Tid = nat

  datatype Edit = AddPartition | DelPartition

  datatype Call =
    | GetDevice
    | PutDevice
    | EditTable(edit: Edit)
    | WalkTable
    | ListRecipe
    | ChangeRecipe(op: Op)
    | CreatePartitions
    | DeletePartitions

  /** What a respawn hands to the MTD core: the nodes its entries alias, and how many entries it declares. */
  datatype Job = Job(create: bool, names: seq<nat>, entries: nat)

  const NOTHING := Job(false, [], 0)

  /** The proxy device in the MTD core: the parts it was last given, or none while it is not registered. */
  datatype Table = Unregistered | Registered(parts: seq<Part>, entries: nat)

  /** BUG_ON checks of the protocol. */
  datatype Stop = PutUnderflow | NegativeCount | EmptyPublish | Overlap(bug: Bug)

  datatype Pc =
    | Idle
    // proxy_mtd_get_device
    | GetLock | GetTest | GetCount | GetUnlock(ret: int)
    // proxy_mtd_put_device
    | PutLock | PutCount | PutUnlock
    // ADD_MTD_PARTITION, DEL_MTD_PARTITION
    | EditLock(edit: Edit) | EditTest(edit: Edit) | EditRun(edit: Edit) | EditUnlock(ran: bool, ret: int)
    // GET_PARTITION_LIST
    | WalkLock | WalkTest | WalkRun | WalkUnlock(ran: bool, ret: int)
    // LIST_RECIPE_PARTS
    | ListLock | ListTest | ListRecipeLock | ListRun | ListRecipeUnlock(ret: int) | ListUnlock(ran: bool, ret: int)
    // RECIPE_ADD_PART, RECIPE_DEL_PART, RESTART_RECIPE and the restart in open
    | ChangeLock(op: Op) | ChangeRun(op: Op) | ChangeUnlock(ret: int)
    // create_recipe_partitions, delete_partitions, respawn_proxy_mtd_locked
    | RespawnLock(create: bool) | Converting
    | FlagLock(job: Job) | FlagWrite(job: Job) | FlagUnlock(job: Job)
    | BugTest(job: Job) | ReadCount(job: Job)
    | Unregister(job: Job) | Register(job: Job)
    | ClearLock(job: Job, quiet: bool, ret: int) | ClearWrite(job: Job, quiet: bool, ret: int)
    | ClearUnlock(job: Job, ret: int) | FreeArray(job: Job, ret: int) | RespawnUnlock(ret: int)
    // stopped at a BUG_ON, with its locks still held
    | Stopped(stop: Stop)

  /** The recipe's nodes: the allocated ones, and the list that links them. */
  datatype Nodes = Nodes(heap: map<nat, Part>, list: seq<nat>, count: nat)

  datatype State = State(
    proxyLock: Option<Tid>,
    recipeLock: Option<Tid>,
    aboutToRespawn: bool,
    useRefcnt: int,
    held: multiset<Tid>,   // the references callers own
    nodes: Nodes,
    table: Table,
    pcs: seq<Pc>)

  /** What the kernel answers to a step: an allocation, user copy or core call returns `code`, kvzalloc
      returns `node`, and an edit that succeeds leaves `edited`. */
  datatype Given = Given(code: int, node: nat, edited: Table)

  datatype Action =
    | Begin(t: Tid, call: Call)
    | Advance(t: Tid, given: Given)
    | HandOver(t: Tid, u: Tid)                // a reference changes hands

  // ----- recipe nodes -----

  /** What reading a freed node yields. */
  function Poison(): Part {
    Part(0, 0, false, false, seq(NAME_MAX, i => 0xff))
  }

  function Deref(heap: map<nat, Part>, id: nat): Part {
    if id in heap then heap[id] else Poison()
  }

  function Read(heap: map<nat, Part>, ids: seq<nat>): (r: seq<Part>)
    ensures |r| == |ids|
  {
    seq(|ids|, i requires 0 <= i < |ids| => Deref(heap, ids[i]))
  }

  function View(n: Nodes): Parts {
    Parts(Read(n.heap, n.list), n.count)
  }

  function Members(ids: seq<nat>): set<nat> {
    set id | id in ids
  }

  /** A recipe call on the nodes, under the recipe lock. */
  function Change(g: Geometry, n: Nodes, op: Op, node: nat): (Nodes, Outcome) {
    match op
    case AddPart(req, memory) =>
      var out := Add(g, View(n), req, memory).1;
      (if out == Ret(0) then Nodes(n.heap[node := ToPart(req)], n.list + [node], n.count + 1) else n, out)
    case DelPart(index) =>
      if index < |n.list|
      then (Nodes(n.heap - {n.list[index]}, n.list[..index] + n.list[index + 1..], n.count), Ret(0))
      else (n, Ret(ENOENT))
    case Release => (n, Ret(0))
    case _ => (Nodes(n.heap - Members(n.list), [], 0), Ret(0))
  }

  // ----- where a thread waits -----

  predicate WantsProxy(pc: Pc) {
    pc.GetLock? || pc.PutLock? || pc.EditLock? || pc.WalkLock? || pc.ListLock? || pc.FlagLock? || pc.ClearLock?
  }

  predicate WantsRecipe(pc: Pc) {
    pc.ListRecipeLock? || pc.ChangeLock? || pc.RespawnLock?
  }

  predicate CanAdvance(s: State, t: Tid) {
    && t < |s.pcs|
    && !s.pcs[t].Idle? && !s.pcs[t].Stopped?
    && (WantsProxy(s.pcs[t]) ==> s.proxyLock == None)
    && (WantsRecipe(s.pcs[t]) ==> s.recipeLock == None)
  }

  /** A put is called only by the owner of a reference, and an owner in a put does not give it away. */
  predicate Enabled(s: State, a: Action) {
    match a
    case Begin(t, call) => t < |s.pcs| && s.pcs[t].Idle? && (call.PutDevice? ==> t in s.held)
    case Advance(t, given) => CanAdvance(s, t) && given.code <= 0 && given.node !in s.nodes.heap
    case HandOver(t, u) => t < |s.pcs| && u < |s.pcs| && s.pcs[t].Idle? && t in s.held
  }

  // ----- the steps -----

  function Entry(call: Call): Pc {
    match call
    case GetDevice => GetLock
    case PutDevice => PutLock
    case EditTable(edit) => EditLock(edit)
    case WalkTable => WalkLock
    case ListRecipe => ListLock
    case ChangeRecipe(op) => ChangeLock(op)
    case CreatePartitions => RespawnLock(true)
    case DeletePartitions => RespawnLock(false)
  }

  function Goto(s: State, t: Tid, pc: Pc): State
    requires t < |s.pcs|
  {
    s.(pcs := s.pcs[t := pc])
  }

  function LockProxy(s: State, t: Tid, pc: Pc): State
    requires t < |s.pcs|
  {
    s.(proxyLock := Some(t), pcs := s.pcs[t := pc])
  }

  function UnlockProxy(s: State, t: Tid, pc: Pc): State
    requires t < |s.pcs|
  {
    s.(proxyLock := None, pcs := s.pcs[t := pc])
  }

  function LockRecipe(s: State, t: Tid, pc: Pc): State
    requires t < |s.pcs|
  {
    s.(recipeLock := Some(t), pcs := s.pcs[t := pc])
  }

  function UnlockRecipe(s: State, t: Tid, pc: Pc): State
    requires t < |s.pcs|
  {
    s.(recipeLock := None, pcs := s.pcs[t := pc])
  }

  predicate UserPc(pc: Pc) {
    pc.GetLock? || pc.GetTest? || pc.GetCount? || pc.GetUnlock? || pc.PutLock? || pc.PutCount? || pc.PutUnlock?
  }

  function StepUser(s: State, t: Tid): State
    requires t < |s.pcs| && UserPc(s.pcs[t])
  {
    match s.pcs[t]
    case GetLock => LockProxy(s, t, GetTest)
    case GetTest => Goto(s, t, if s.aboutToRespawn then GetUnlock(EBUSY) else GetCount)
    case GetCount => Goto(s, t, GetUnlock(0)).(useRefcnt := s.useRefcnt + 1, held := s.held + multiset{t})
    case GetUnlock(_) => UnlockProxy(s, t, Idle)
    case PutLock => LockProxy(s, t, PutCount)
    case PutCount =>
      if s.useRefcnt == 0 then Goto(s, t, Stopped(PutUnderflow))
      else Goto(s, t, PutUnlock).(useRefcnt := s.useRefcnt - 1, held := s.held - multiset{t})
    case PutUnlock => UnlockProxy(s, t, Idle)
  }

  predicate TablePc(pc: Pc) {
    || pc.EditLock? || pc.EditTest? || pc.EditRun? || pc.EditUnlock?
    || pc.WalkLock? || pc.WalkTest? || pc.WalkRun? || pc.WalkUnlock?
    || pc.ListLock? || pc.ListTest? || pc.ListRecipeLock? || pc.ListRun? || pc.ListRecipeUnlock? || pc.ListUnlock?
  }

  function StepTable(s: State, t: Tid, given: Given): State
    requires t < |s.pcs| && TablePc(s.pcs[t])
  {
    match s.pcs[t]
    case EditLock(edit) => LockProxy(s, t, EditTest(edit))
    case EditTest(edit) =>
      Goto(s, t, if s.aboutToRespawn || s.useRefcnt != 0 then EditUnlock(false, EBUSY) else EditRun(edit))
    case EditRun(_) =>
      Goto(s, t, EditUnlock(true, given.code)).(table := if given.code == 0 then given.edited else s.table)
    case EditUnlock(_, _) => UnlockProxy(s, t, Idle)
    case WalkLock => LockProxy(s, t, WalkTest)
    case WalkTest => Goto(s, t, if s.aboutToRespawn then WalkUnlock(false, EBUSY) else WalkRun)
    case WalkRun => Goto(s, t, WalkUnlock(true, given.code))
    case WalkUnlock(_, _) => UnlockProxy(s, t, Idle)
    case ListLock => LockProxy(s, t, ListTest)
    case ListTest => Goto(s, t, if s.aboutToRespawn then ListUnlock(false, EBUSY) else ListRecipeLock)
    case ListRecipeLock => LockRecipe(s, t, ListRun)
    case ListRun => Goto(s, t, ListRecipeUnlock(given.code))
    case ListRecipeUnlock(ret) => UnlockRecipe(s, t, ListUnlock(true, ret))
    case ListUnlock(_, _) => UnlockProxy(s, t, Idle)
  }

  predicate ChangePc(pc: Pc) {
    pc.ChangeLock? || pc.ChangeRun? || pc.ChangeUnlock?
  }

  function StepChange(g: Geometry, s: State, t: Tid, node: nat): State
    requires t < |s.pcs| && ChangePc(s.pcs[t])
  {
    match s.pcs[t]
    case ChangeLock(op) => LockRecipe(s, t, ChangeRun(op))
    case ChangeRun(op) =>
      var (nodes, out) := Change(g, s.nodes, op, node);
      Goto(s, t, if out.Ret? then ChangeUnlock(out.code) else Stopped(Overlap(out.bug))).(nodes := nodes)
    case ChangeUnlock(_) => UnlockRecipe(s, t, Idle)
  }

  predicate RespawnPc(pc: Pc) {
    !pc.Idle? && !pc.Stopped? && !UserPc(pc) && !TablePc(pc) && !ChangePc(pc)
  }

  /** The counter is read at `BugTest` and `ReadCount` without any proxy lock. */
  function StepRespawn(s: State, t: Tid, code: int): State
    requires t < |s.pcs| && RespawnPc(s.pcs[t])
  {
    match s.pcs[t]
    case RespawnLock(create) => LockRecipe(s, t, if create then Converting else FlagLock(NOTHING))
    case Converting =>
      if s.nodes.count == 0 then Goto(s, t, RespawnUnlock(EINVAL))
      else if s.nodes.list == [] then Goto(s, t, Stopped(EmptyPublish))
      else if code < 0 then Goto(s, t, RespawnUnlock(ENOMEM))
      else Goto(s, t, FlagLock(Job(true, s.nodes.list, s.nodes.count)))
    case FlagLock(job) => LockProxy(s, t, FlagWrite(job))
    case FlagWrite(job) => Goto(s, t, FlagUnlock(job)).(aboutToRespawn := true)
    case FlagUnlock(job) => UnlockProxy(s, t, BugTest(job))
    case BugTest(job) => Goto(s, t, if s.useRefcnt < 0 then Stopped(NegativeCount) else ReadCount(job))
    case ReadCount(job) => Goto(s, t, if s.useRefcnt != 0 then ClearLock(job, false, EBUSY) else Unregister(job))
    case Unregister(job) =>
      if code < 0 then Goto(s, t, ClearLock(job, true, code))
      else Goto(s, t, Register(job)).(table := Unregistered)
    case Register(job) =>
      if code < 0 then Goto(s, t, ClearLock(job, true, code))
      else Goto(s, t, ClearLock(job, true, 0)).(table := Registered(Read(s.nodes.heap, job.names), job.entries))
    case ClearLock(job, quiet, ret) => LockProxy(s, t, ClearWrite(job, quiet, ret))
    case ClearWrite(job, _, ret) => Goto(s, t, ClearUnlock(job, ret)).(aboutToRespawn := false)
    case ClearUnlock(job, ret) => UnlockProxy(s, t, FreeArray(job, ret))
    case FreeArray(_, ret) => Goto(s, t, RespawnUnlock(ret))
    case RespawnUnlock(_) => UnlockRecipe(s, t, Idle)
  }

  function Do(g: Geometry, s: State, a: Action): State
    requires Enabled(s, a)
  {
    match a
    case Begin(t, call) => Goto(s, t, Entry(call))
    case HandOver(t, u) => s.(held := s.held - multiset{t} + multiset{u})
    case Advance(t, given) =>
      if UserPc(s.pcs[t]) then StepUser(s, t)
      else if TablePc(s.pcs[t]) then StepTable(s, t, given)
      else if ChangePc(s.pcs[t]) then StepChange(g, s, t, given.node)
      else StepRespawn(s, t, given.code)
  }

  // ----- runs -----

  predicate Initial(s: State) {
    && s.proxyLock == None && s.recipeLock == None
    && !s.aboutToRespawn && s.useRefcnt == 0 && s.held == multiset{}
    && s.nodes == Nodes(map[], [], 0) && s.table == Registered([], 0)
    && forall t :: 0 <= t < |s.pcs| ==> s.pcs[t] == Idle
  }

  predicate Legal(g: Geometry, s: State, acts: seq<Action>)
    decreases |acts|
  {
    acts == [] || (Enabled(s, acts[0]) && Legal(g, Do(g, s, acts[0]), acts[1..]))
  }

  function Exec(g: Geometry, s: State, acts: seq<Action>): State
    requires Legal(g, s, acts)
    decreases |acts|
  {
    if acts == [] then s else Exec(g, Do(g, s, acts[0]), acts[1..])
  }

  lemma Runs(g: Geometry, s: State, a: Action, s': State, acts: seq<Action>, end: State)
    requires Enabled(s, a) && Do(g, s, a) == s'
    requires Legal(g, s', acts) && Exec(g, s', acts) == end
    ensures Legal(g, s, [a] + acts) && Exec(g, s, [a] + acts) == end
  {
    assert ([a] + acts)[0] == a && ([a] + acts)[1..] == acts;
  }

  ghost predicate Reachable(g: Geometry, s: State) {
    exists s0, acts :: Initial(s0) && Legal(g, s0, acts) && Exec(g, s0, acts) == s
  }
}
