/**
 * What one call does between its begin and its return, whatever the other
 * threads do meanwhile: the code it carries away and its effect on the shared
 * fields.
 */
module RespawnCalls {
  import opened Kernel
  import opened Flash
  import opened Recipe
  import opened Respawn
  import opened RespawnInvariant
  import opened RespawnSafety
  import opened RespawnProgress

  /** Thread t begins no further call. */
  ghost predicate NoBegin(t: Tid, acts: seq<Action>) {
    forall i :: 0 <= i < |acts| ==> !(acts[i].Begin? && acts[i].t == t)
  }

  predicate Moves(a: Action, t: Tid) {
    a.Advance? && a.t == t
  }

  /** A run leads from the reachable s to s', and thread t begins no further call in it. */
  ghost predicate Later(g: Geometry, s: State, t: Tid, acts: seq<Action>, s': State) {
    Reachable(g, s) && At(s, t) && Legal(g, s, acts) && NoBegin(t, acts) && Exec(g, s, acts) == s' && At(s', t)
  }

  lemma OthersKeep(g: Geometry, s: State, t: Tid, a: Action)
    requires Enabled(s, a) && At(s, t) && !Moves(a, t) && !(a.Begin? && a.t == t)
    ensures At(Do(g, s, a), t) && Do(g, s, a).pcs[t] == s.pcs[t]
  {
    if a.Advance? {
      Forward(g, s, a);
    }
  }

  predicate Over(pc: Pc) {
    pc.Idle? || pc.Stopped?
  }

  /** A call that is over stays over. */
  lemma {:induction false} OverStays(g: Geometry, s: State, t: Tid, acts: seq<Action>)
    requires At(s, t) && Over(s.pcs[t]) && Legal(g, s, acts) && NoBegin(t, acts)
    ensures At(Exec(g, s, acts), t) && Exec(g, s, acts).pcs[t] == s.pcs[t]
    decreases |acts|
  {
    if acts != [] {
      OthersKeep(g, s, t, acts[0]);
      OverStays(g, Do(g, s, acts[0]), t, acts[1..]);
    }
  }

  // ----- a call keeps to its own steps -----

  predicate RespawnOf(create: bool, pc: Pc) {
    && RespawnPc(pc)
    && (pc.RespawnLock? ==> pc.create == create)
    && (pc.Converting? ==> create)
    && (HasJob(pc) ==> pc.job.create == create)
  }

  /** The steps of a call that has not returned; only a create can also halt. */
  predicate Belongs(call: Call, pc: Pc) {
    match call
    case GetDevice => UserPc(pc) && !PutPc(pc)
    case PutDevice => PutPc(pc)
    case EditTable(edit) => EditPc(pc) && (pc.EditUnlock? || pc.edit == edit)
    case WalkTable => WalkPc(pc)
    case ListRecipe => ListPc(pc)
    case ChangeRecipe(op) => ChangePc(pc) && (pc.ChangeUnlock? || pc.op == op)
    case CreatePartitions => RespawnOf(true, pc) || pc == Stopped(EmptyPublish)
    case DeletePartitions => RespawnOf(false, pc)
  }

  lemma UserBelongs(s: State, t: Tid, call: Call)
    requires At(s, t) && UserPc(s.pcs[t]) && Belongs(call, s.pcs[t]) && ThreadOk(s, t) && s.useRefcnt == |s.held|
    ensures var pc := StepUser(s, t).pcs[t]; pc.Idle? || Belongs(call, pc)
  {
  }

  lemma TableBelongs(s: State, t: Tid, call: Call, given: Given)
    requires At(s, t) && TablePc(s.pcs[t]) && Belongs(call, s.pcs[t])
    ensures var pc := StepTable(s, t, given).pcs[t]; pc.Idle? || Belongs(call, pc)
  {
  }

  lemma ChangeBelongs(g: Geometry, s: State, t: Tid, call: Call, node: nat)
    requires Inv(g, s) && At(s, t) && ChangePc(s.pcs[t]) && Belongs(call, s.pcs[t]) && node !in s.nodes.heap
    ensures var pc := StepChange(g, s, t, node).pcs[t]; pc.Idle? || Belongs(call, pc)
  {
    if s.pcs[t].ChangeRun? {
      ChangeMeaning(g, s.nodes, s.pcs[t].op, node);
      StepValid(g, Device(View(s.nodes), false), s.pcs[t].op);
    }
  }

  lemma LockKeeps(s: State, t: Tid, create: bool, code: int)
    requires At(s, t) && LockStep(s.pcs[t]) && RespawnOf(create, s.pcs[t])
    ensures var pc := StepRespawn(s, t, code).pcs[t]; pc.Idle? || RespawnOf(create, pc)
  {
  }

  lemma CoreKeeps(s: State, t: Tid, create: bool, code: int)
    requires At(s, t) && RespawnOf(create, s.pcs[t])
    requires s.pcs[t].Unregister? || s.pcs[t].Register? || s.pcs[t].ReadCount?
    ensures RespawnOf(create, StepRespawn(s, t, code).pcs[t])
  {
  }

  lemma RespawnKeeps(s: State, t: Tid, create: bool, code: int)
    requires At(s, t) && RespawnOf(create, s.pcs[t]) && s.useRefcnt >= 0
    ensures var pc := StepRespawn(s, t, code).pcs[t];
            pc.Idle? || RespawnOf(create, pc) || (create && pc == Stopped(EmptyPublish))
  {
    if LockStep(s.pcs[t]) {
      LockKeeps(s, t, create, code);
    } else if s.pcs[t].Unregister? || s.pcs[t].Register? || s.pcs[t].ReadCount? {
      CoreKeeps(s, t, create, code);
    }
  }

  lemma BelongsStep(g: Geometry, s: State, t: Tid, call: Call, a: Action)
    requires Inv(g, s) && At(s, t) && Belongs(call, s.pcs[t]) && Enabled(s, a) && Moves(a, t)
    ensures var s' := Do(g, s, a); At(s', t) && (s'.pcs[t].Idle? || Belongs(call, s'.pcs[t]))
  {
    assert ThreadOk(s, t);
    if UserPc(s.pcs[t]) {
      UserBelongs(s, t, call);
    } else if TablePc(s.pcs[t]) {
      TableBelongs(s, t, call, a.given);
    } else if ChangePc(s.pcs[t]) {
      ChangeBelongs(g, s, t, call, a.given.node);
    } else {
      RespawnKeeps(s, t, call.CreatePartitions?, a.given.code);
    }
  }

  lemma {:induction false} BelongsRun(g: Geometry, s: State, t: Tid, call: Call, acts: seq<Action>)
    requires Inv(g, s) && At(s, t) && Belongs(call, s.pcs[t]) && Legal(g, s, acts) && NoBegin(t, acts)
    ensures var s' := Exec(g, s, acts); At(s', t) && (s'.pcs[t].Idle? || Belongs(call, s'.pcs[t]))
    decreases |acts|
  {
    if acts != [] {
      var a, s' := acts[0], Do(g, s, acts[0]);
      StepInv(g, s, a);
      if Moves(a, t) {
        BelongsStep(g, s, t, call, a);
      } else {
        OthersKeep(g, s, t, a);
      }
      if s'.pcs[t].Idle? {
        OverStays(g, s', t, acts[1..]);
      } else {
        BelongsRun(g, s', t, call, acts[1..]);
      }
    }
  }

  /** A call that has begun is at one of its own steps until it returns, over every interleaving. */
  lemma CallSteps(g: Geometry, s: State, t: Tid, call: Call, acts: seq<Action>)
    requires Reachable(g, s) && Enabled(s, Begin(t, call))
    requires Legal(g, Do(g, s, Begin(t, call)), acts) && NoBegin(t, acts)
    ensures var s' := Exec(g, Do(g, s, Begin(t, call)), acts);
            At(s', t) && (s'.pcs[t].Idle? || Belongs(call, s'.pcs[t]))
  {
    ReachableInv(g, s);
    StepInv(g, s, Begin(t, call));
    BelongsRun(g, Do(g, s, Begin(t, call)), t, call, acts);
  }

  // ----- under the proxy lock -----

  /** A get or put, or a call on the table, that has the proxy lock. */
  predicate Inside(pc: Pc) {
    HoldsProxy(pc) && (UserPc(pc) || TablePc(pc))
  }

  /** The change a get or put has made to the counter so far. */
  function Made(pc: Pc): int {
    if pc.GetUnlock? && pc.ret == 0 then 1 else if pc.PutUnlock? then -1 else 0
  }

  /** As long as a thread has the proxy lock nobody else moves flag or counter, nor, with the flag clear, the table. */
  lemma LockStable(g: Geometry, s: State, t: Tid, a: Action)
    requires Inv(g, s) && At(s, t) && HoldsProxy(s.pcs[t]) && Enabled(s, a) && !Moves(a, t)
    requires Inside(s.pcs[t])
    ensures var s' := Do(g, s, a);
            && At(s', t) && s'.pcs[t] == s.pcs[t]
            && s'.aboutToRespawn == s.aboutToRespawn && s'.useRefcnt == s.useRefcnt
            && (!s.aboutToRespawn ==> s'.table == s.table)
  {
    assert ThreadOk(s, t);
    if a.Advance? {
      assert ThreadOk(s, a.t);
    }
    OthersKeep(g, s, t, a);
  }

  /** One step of a get or put: what it makes of the counter, and of its caller's references. */
  lemma UserMakes(s: State, t: Tid)
    requires At(s, t) && UserPc(s.pcs[t]) && ThreadOk(s, t) && s.useRefcnt == |s.held|
    ensures var s' := StepUser(s, t);
            && s'.aboutToRespawn == s.aboutToRespawn && s'.table == s.table
            && (s'.pcs[t].Idle? || (UserPc(s'.pcs[t]) && HoldsProxy(s'.pcs[t])))
            && (UserPc(s'.pcs[t]) ==>
                  && s'.useRefcnt - Made(s'.pcs[t]) == s.useRefcnt - Made(s.pcs[t])
                  && s'.held[t] - Made(s'.pcs[t]) == s.held[t] - Made(s.pcs[t]))
  {
    if PutPc(s.pcs[t]) {
      PutMakes(s, t);
    }
  }

  lemma PutMakes(s: State, t: Tid)
    requires At(s, t) && PutPc(s.pcs[t]) && ThreadOk(s, t) && s.useRefcnt == |s.held|
    ensures var s' := StepUser(s, t);
            && s'.aboutToRespawn == s.aboutToRespawn && s'.table == s.table
            && (s'.pcs[t].Idle? || (PutPc(s'.pcs[t]) && HoldsProxy(s'.pcs[t])))
            && (UserPc(s'.pcs[t]) ==>
                  && s'.useRefcnt - Made(s'.pcs[t]) == s.useRefcnt - Made(s.pcs[t])
                  && s'.held[t] - Made(s'.pcs[t]) == s.held[t] - Made(s.pcs[t]))
  {
  }

  lemma TableMakes(s: State, t: Tid, given: Given)
    requires At(s, t) && TablePc(s.pcs[t]) && HoldsProxy(s.pcs[t])
    ensures var s' := StepTable(s, t, given);
            && s'.aboutToRespawn == s.aboutToRespawn && s'.useRefcnt == s.useRefcnt
            && (s'.pcs[t].Idle? || (TablePc(s'.pcs[t]) && HoldsProxy(s'.pcs[t])
                                    && EditPc(s'.pcs[t]) == EditPc(s.pcs[t])))
            && (!s.pcs[t].EditRun? ==> s'.table == s.table)
  {
  }

  lemma InsideStep(g: Geometry, s: State, t: Tid, a: Action)
    requires Inv(g, s) && At(s, t) && Inside(s.pcs[t]) && Enabled(s, a) && Moves(a, t)
    ensures var s' := Do(g, s, a);
            && At(s', t) && s'.aboutToRespawn == s.aboutToRespawn
            && (s'.pcs[t].Idle? || (Inside(s'.pcs[t]) && EditPc(s'.pcs[t]) == EditPc(s.pcs[t])
                                    && s'.useRefcnt - Made(s'.pcs[t]) == s.useRefcnt - Made(s.pcs[t])))
            && (!s.pcs[t].EditRun? ==> s'.table == s.table)
  {
    assert ThreadOk(s, t);
    if UserPc(s.pcs[t]) {
      UserMakes(s, t);
    } else {
      TableMakes(s, t, a.given);
    }
  }

  /** From one point under the proxy lock to a later one of the same call. */
  lemma {:induction false} InsideRun(g: Geometry, s: State, t: Tid, acts: seq<Action>)
    requires Inv(g, s) && At(s, t) && Inside(s.pcs[t]) && Legal(g, s, acts) && NoBegin(t, acts)
    requires var s' := Exec(g, s, acts); At(s', t) && !s'.pcs[t].Idle?
    ensures var s' := Exec(g, s, acts);
            && s'.aboutToRespawn == s.aboutToRespawn
            && s'.useRefcnt - Made(s'.pcs[t]) == s.useRefcnt - Made(s.pcs[t])
            && (!s.aboutToRespawn && !EditPc(s.pcs[t]) ==> s'.table == s.table)
    decreases |acts|
  {
    if acts != [] {
      var a, s' := acts[0], Do(g, s, acts[0]);
      StepInv(g, s, a);
      if Moves(a, t) {
        InsideStep(g, s, t, a);
      } else {
        LockStable(g, s, t, a);
      }
      if s'.pcs[t].Idle? {
        OverStays(g, s', t, acts[1..]);
      } else {
        InsideRun(g, s', t, acts[1..]);
      }
    }
  }

  // ----- gets and puts -----

  /** The references handed to thread t. */
  function Received(t: Tid, acts: seq<Action>): nat {
    if acts == [] then 0 else (if acts[0].HandOver? && acts[0].u == t then 1 else 0) + Received(t, acts[1..])
  }

  lemma OwnStep(g: Geometry, s: State, t: Tid, a: Action)
    requires Inv(g, s) && At(s, t) && UserPc(s.pcs[t]) && Enabled(s, a)
    ensures var s' := Do(g, s, a);
            && At(s', t) && (s'.pcs[t].Idle? || UserPc(s'.pcs[t]))
            && (UserPc(s'.pcs[t]) ==>
                  s'.held[t] - Made(s'.pcs[t]) == s.held[t] - Made(s.pcs[t]) + Received(t, [a]))
  {
    assert ThreadOk(s, t);
    assert [a][1..] == [];
    if Moves(a, t) {
      UserMakes(s, t);
    } else {
      OthersOwn(g, s, t, a);
    }
  }

  lemma UserOwns(s: State, t: Tid, u: Tid)
    requires At(s, u) && UserPc(s.pcs[u]) && u != t
    ensures StepUser(s, u).held[t] == s.held[t]
  {
  }

  lemma OthersOwn(g: Geometry, s: State, t: Tid, a: Action)
    requires At(s, t) && UserPc(s.pcs[t]) && Enabled(s, a) && !Moves(a, t)
    ensures var s' := Do(g, s, a);
            At(s', t) && s'.pcs[t] == s.pcs[t] && s'.held[t] == s.held[t] + Received(t, [a])
  {
    assert [a][1..] == [];
    OthersKeep(g, s, t, a);
    if a.Advance? && UserPc(s.pcs[a.t]) {
      UserOwns(s, t, a.t);
    }
  }

  /** While a get or put is in flight its caller's references change by what it made and by what is handed over. */
  lemma {:induction false} OwnRun(g: Geometry, s: State, t: Tid, acts: seq<Action>)
    requires Inv(g, s) && At(s, t) && UserPc(s.pcs[t]) && Legal(g, s, acts) && NoBegin(t, acts)
    requires var s' := Exec(g, s, acts); At(s', t) && UserPc(s'.pcs[t])
    ensures var s' := Exec(g, s, acts);
            s'.held[t] - Made(s'.pcs[t]) == s.held[t] - Made(s.pcs[t]) + Received(t, acts)
    decreases |acts|
  {
    if acts != [] {
      var s' := Do(g, s, acts[0]);
      StepInv(g, s, acts[0]);
      OwnStep(g, s, t, acts[0]);
      assert [acts[0]][1..] == [];
      if s'.pcs[t].Idle? {
        OverStays(g, s', t, acts[1..]);
      } else {
        OwnRun(g, s', t, acts[1..]);
      }
    }
  }

  /**
   * A get is granted if and only if no respawn has the flag up. Between taking
   * and releasing the proxy lock it returns 0, with the counter and the
   * caller's references each one higher, exactly when the flag is clear;
   * otherwise both stay and it returns -EBUSY, and then some thread is between
   * its two writes of the flag.
   */
  lemma GetGranted(g: Geometry, s: State, t: Tid, acts: seq<Action>, s': State)
    requires Later(g, s, t, acts, s') && s.pcs[t].GetTest? && s'.pcs[t].GetUnlock?
    ensures var ret, gain := s'.pcs[t].ret, s'.useRefcnt - s.useRefcnt;
            && s'.aboutToRespawn == s.aboutToRespawn
            && (ret == 0 <==> !s.aboutToRespawn) && (ret == 0 <==> gain == 1) && (ret != 0 <==> gain == 0)
            && s'.held[t] == s.held[t] + Received(t, acts) + gain
            && (ret == EBUSY <==> exists u: Tid :: At(s', u) && FlagUp(s'.pcs[u]))
            && (ret == 0 || ret == EBUSY)
  {
    ReachableInv(g, s);
    RunInv(g, s, acts);
    InsideRun(g, s, t, acts);
    OwnRun(g, s, t, acts);
    assert ThreadOk(s', t);
    if s'.aboutToRespawn {
      assert At(s', s'.recipeLock.value) && FlagUp(s'.pcs[s'.recipeLock.value]);
    } else {
      assert forall u: Tid :: At(s', u) ==> ThreadOk(s', u);
    }
  }

  /** A put drops the counter by one under the proxy lock, and takes one reference from its caller. */
  lemma PutDrops(g: Geometry, s: State, t: Tid, acts: seq<Action>, s': State)
    requires Later(g, s, t, acts, s') && (s.pcs[t].PutLock? || s.pcs[t].PutCount?) && s'.pcs[t].PutUnlock?
    ensures s'.held[t] == s.held[t] + Received(t, acts) - 1
    ensures s.pcs[t].PutCount? ==> s'.useRefcnt == s.useRefcnt - 1
  {
    ReachableInv(g, s);
    OwnRun(g, s, t, acts);
    if s.pcs[t].PutCount? {
      InsideRun(g, s, t, acts);
    }
  }

  // ----- the live table -----

  /** What the MTD core answers to thread t's edits. */
  function Edits(g: Geometry, s: State, t: Tid, acts: seq<Action>): seq<Given>
    requires Legal(g, s, acts)
    decreases |acts|
  {
    if acts == [] then [] else
    (if Moves(acts[0], t) && s.pcs[t].EditRun? then [acts[0].given] else [])
    + Edits(g, Do(g, s, acts[0]), t, acts[1..])
  }

  lemma EditStep(s: State, t: Tid, given: Given)
    requires At(s, t) && EditPc(s.pcs[t]) && Inside(s.pcs[t])
    ensures var pc, s' := s.pcs[t], StepTable(s, t, given);
            && s'.aboutToRespawn == s.aboutToRespawn
            && (pc.EditTest? ==> s'.table == s.table && (s'.pcs[t].EditRun? || s'.pcs[t] == EditUnlock(false, EBUSY)))
            && (pc.EditRun? ==>
                  s'.pcs[t] == EditUnlock(true, given.code)
                  && s'.table == if given.code == 0 then given.edited else s.table)
            && (pc.EditUnlock? ==> s'.pcs[t].Idle?)
  {
  }

  lemma EditAction(g: Geometry, s: State, t: Tid, a: Action)
    requires Inv(g, s) && At(s, t) && EditPc(s.pcs[t]) && Inside(s.pcs[t])
    requires Enabled(s, a) && !(a.Begin? && a.t == t)
    ensures var pc, s' := s.pcs[t], Do(g, s, a);
            && Inv(g, s') && At(s', t) && s'.aboutToRespawn == s.aboutToRespawn
            && (!Moves(a, t) ==> s'.pcs[t] == pc && (!s.aboutToRespawn ==> s'.table == s.table))
            && (Moves(a, t) ==> s' == StepTable(s, t, a.given))
  {
    StepInv(g, s, a);
    if Moves(a, t) {
      EditStep(s, t, a.given);
    } else {
      LockStable(g, s, t, a);
    }
  }

  /** The table and code after the core's answers to one edit. */
  predicate Edited(s: State, s': State, t: Tid, edits: seq<Given>)
    requires At(s, t) && At(s', t) && s'.pcs[t].EditUnlock?
  {
    var pc := s'.pcs[t];
    && (s.pcs[t].EditUnlock? ==> edits == [] && pc == s.pcs[t])
    && (s.pcs[t].EditRun? ==> |edits| == 1 && pc == EditUnlock(true, edits[0].code))
    && (s.pcs[t].EditTest? ==> if pc.ran then |edits| == 1 && pc.ret == edits[0].code else edits == [])
    && (!s.aboutToRespawn ==> s'.table == if edits != [] && edits[0].code == 0 then edits[0].edited else s.table)
  }

  lemma {:induction false} EditRuns(g: Geometry, s: State, t: Tid, acts: seq<Action>)
    requires Inv(g, s) && At(s, t) && EditPc(s.pcs[t]) && Inside(s.pcs[t]) && Legal(g, s, acts) && NoBegin(t, acts)
    requires var s' := Exec(g, s, acts); At(s', t) && s'.pcs[t].EditUnlock?
    ensures Edited(s, Exec(g, s, acts), t, Edits(g, s, t, acts))
    decreases |acts|
  {
    if acts != [] {
      var a, s' := acts[0], Do(g, s, acts[0]);
      EditAction(g, s, t, a);
      if Moves(a, t) {
        EditStep(s, t, a.given);
      }
      if s'.pcs[t].Idle? {
        OverStays(g, s', t, acts[1..]);
      } else {
        EditRuns(g, s', t, acts[1..]);
      }
    }
  }

  /**
   * A direct add or delete between taking and releasing the proxy lock. It asks
   * the core once, exactly when the flag is clear and no reference is held, and
   * returns the core's answer: the core's new table on 0, the old one on a
   * failure. Otherwise it asks nothing, returns -EBUSY and leaves the table
   * alone; with the flag up the table belongs to the respawn.
   */
  lemma EditAnswers(g: Geometry, s: State, t: Tid, acts: seq<Action>, s': State)
    requires Later(g, s, t, acts, s') && s.pcs[t].EditTest? && s'.pcs[t].EditUnlock?
    ensures var ret, edits := s'.pcs[t].ret, Edits(g, s, t, acts);
            && s'.aboutToRespawn == s.aboutToRespawn && s'.useRefcnt == s.useRefcnt
            && |edits| == (if !s.aboutToRespawn && s.useRefcnt == 0 then 1 else 0)
            && ret == (if edits == [] then EBUSY else edits[0].code)
            && (!s.aboutToRespawn ==> s'.table == if edits != [] && ret == 0 then edits[0].edited else s.table)
  {
    ReachableInv(g, s);
    RunInv(g, s, acts);
    InsideRun(g, s, t, acts);
    EditRuns(g, s, t, acts);
    assert ThreadOk(s', t);
  }

  /**
   * A live-table walk or a recipe listing between taking and releasing the
   * proxy lock: it runs exactly when the flag is clear, and then sees one table
   * throughout; otherwise it returns -EBUSY.
   */
  lemma ReadersLetIn(g: Geometry, s: State, t: Tid, acts: seq<Action>, s': State)
    requires Later(g, s, t, acts, s')
    requires s.pcs[t].WalkTest? || s.pcs[t].ListTest?
    requires s'.pcs[t].WalkUnlock? || s'.pcs[t].ListUnlock?
    ensures s'.pcs[t].ran <==> !s.aboutToRespawn
    ensures s'.pcs[t].ran ==> s'.table == s.table && !s'.aboutToRespawn
    ensures !s'.pcs[t].ran ==> s'.pcs[t].ret == EBUSY
  {
    ReachableInv(g, s);
    RunInv(g, s, acts);
    InsideRun(g, s, t, acts);
    assert ThreadOk(s', t);
  }

  // ----- respawns -----

  predicate AsksCore(pc: Pc) {
    pc.Unregister? || pc.Register?
  }

  /** What the MTD core answers in one action of thread t. */
  function Answer(s: State, t: Tid, a: Action): seq<int>
    requires At(s, t)
  {
    if Moves(a, t) && AsksCore(s.pcs[t]) then [a.given.code] else []
  }

  /** What it answers to thread t's unregister and register over a run. */
  function Answers(g: Geometry, s: State, t: Tid, acts: seq<Action>): seq<int>
    requires At(s, t) && Legal(g, s, acts)
    decreases |acts|
  {
    if acts == [] then [] else Answer(s, t, acts[0]) + Answers(g, Do(g, s, acts[0]), t, acts[1..])
  }

  lemma AnswersCons(g: Geometry, s: State, t: Tid, answers: seq<int>, acts: seq<Action>)
    requires At(s, t) && acts != [] && Legal(g, s, acts)
    ensures answers + Answers(g, s, t, acts) ==
            (answers + Answer(s, t, acts[0])) + Answers(g, Do(g, s, acts[0]), t, acts[1..])
  {
  }

  /** The code for the core's answers; with none, a conversion failed or a reference was held. */
  predicate Reports(create: bool, answers: seq<int>, ret: int) {
    || (answers == [0, 0] && ret == 0)
    || (ret < 0 && (answers == [ret] || answers == [0, ret]))
    || (answers == [] && (ret == EBUSY || (create && (ret == EINVAL || ret == ENOMEM))))
  }

  /** Where a respawn stands after the core's answers so far. */
  predicate Stage(create: bool, pc: Pc, answers: seq<int>) {
    if pc.Register? then answers == [0]
    else if pc.ClearLock? || pc.ClearWrite? then (pc.quiet <==> answers != []) && Reports(create, answers, pc.ret)
    else if pc.ClearUnlock? || pc.FreeArray? || pc.RespawnUnlock? then Reports(create, answers, pc.ret)
    else answers == []
  }

  lemma StageLock(s: State, t: Tid, create: bool, answers: seq<int>)
    requires At(s, t) && LockStep(s.pcs[t]) && Stage(create, s.pcs[t], answers)
    ensures var pc := StepRespawn(s, t, 0).pcs[t]; pc.Idle? || Stage(create, pc, answers)
  {
  }

  lemma StageStep(s: State, t: Tid, create: bool, answers: seq<int>, code: int)
    requires At(s, t) && RespawnPc(s.pcs[t]) && Stage(create, s.pcs[t], answers) && code <= 0
    requires s.pcs[t].Converting? ==> create
    ensures var pc := StepRespawn(s, t, code).pcs[t];
            Over(pc) || Stage(create, pc, if AsksCore(s.pcs[t]) then answers + [code] else answers)
  {
    if LockStep(s.pcs[t]) {
      StageLock(s, t, create, answers);
    }
  }

  function CallOf(create: bool): Call {
    if create then CreatePartitions else DeletePartitions
  }

  lemma StageAction(g: Geometry, s: State, t: Tid, create: bool, answers: seq<int>, a: Action)
    requires Inv(g, s) && At(s, t) && RespawnOf(create, s.pcs[t]) && Stage(create, s.pcs[t], answers)
    requires Enabled(s, a) && !(a.Begin? && a.t == t)
    ensures var s' := Do(g, s, a);
            && Inv(g, s') && At(s', t)
            && (Over(s'.pcs[t]) ||
                (RespawnOf(create, s'.pcs[t]) && Stage(create, s'.pcs[t], answers + Answer(s, t, a))))
  {
    StepInv(g, s, a);
    assert answers + [] == answers;
    if Moves(a, t) {
      BelongsStep(g, s, t, CallOf(create), a);
      StageStep(s, t, create, answers, a.given.code);
    } else {
      OthersKeep(g, s, t, a);
    }
  }

  lemma {:induction false} StageRun(g: Geometry, s: State, t: Tid, create: bool, answers: seq<int>, acts: seq<Action>)
    requires Inv(g, s) && At(s, t) && RespawnOf(create, s.pcs[t]) && Stage(create, s.pcs[t], answers)
    requires Legal(g, s, acts) && NoBegin(t, acts)
    ensures var s' := Exec(g, s, acts);
            At(s', t) && (Over(s'.pcs[t]) || Stage(create, s'.pcs[t], answers + Answers(g, s, t, acts)))
    decreases |acts|
  {
    if acts == [] {
      assert answers + [] == answers;
    } else {
      var s', told := Do(g, s, acts[0]), answers + Answer(s, t, acts[0]);
      StageAction(g, s, t, create, answers, acts[0]);
      AnswersCons(g, s, t, answers, acts);
      if Over(s'.pcs[t]) {
        OverStays(g, s', t, acts[1..]);
      } else {
        StageRun(g, s', t, create, told, acts[1..]);
      }
    }
  }

  /**
   * What a respawn returns, over every interleaving, from what the core
   * answered to it: 0 exactly if it was asked to unregister and to register and
   * both succeeded; the code of the call that failed, after which it asks
   * nothing more; and with no question asked, -EBUSY, or for a create also
   * -EINVAL or -ENOMEM.
   */
  lemma RespawnReports(g: Geometry, s: State, t: Tid, create: bool, acts: seq<Action>, s': State)
    requires Later(g, s, t, acts, s') && s.pcs[t] == RespawnLock(create) && s'.pcs[t].RespawnUnlock?
    ensures var ret, answers := s'.pcs[t].ret, Answers(g, s, t, acts);
            && (ret == 0 <==> answers == [0, 0])
            && (ret != 0 ==> answers == [ret] || answers == [0, ret] || answers == [])
            && (answers == [] ==> ret == EBUSY || (create && (ret == EINVAL || ret == ENOMEM)))
  {
    ReachableInv(g, s);
    StageRun(g, s, t, create, [], acts);
    assert [] + Answers(g, s, t, acts) == Answers(g, s, t, acts);
  }

  // ----- the way out of a respawn -----

  predicate Leaving(pc: Pc) {
    pc.ClearLock? || pc.ClearWrite? || pc.ClearUnlock? || pc.FreeArray? || pc.RespawnUnlock?
  }

  /** The codes thread t's respawns return. */
  function Returned(g: Geometry, s: State, t: Tid, acts: seq<Action>): seq<int>
    requires Legal(g, s, acts)
    decreases |acts|
  {
    if acts == [] then [] else
    (if Moves(acts[0], t) && s.pcs[t].RespawnUnlock? then [s.pcs[t].ret] else [])
    + Returned(g, Do(g, s, acts[0]), t, acts[1..])
  }

  /** With the flag up by thread t, nobody else moves the table. */
  lemma WindowStable(g: Geometry, s: State, t: Tid, a: Action)
    requires Inv(g, s) && At(s, t) && FlagUp(s.pcs[t]) && Enabled(s, a) && !Moves(a, t)
    ensures Do(g, s, a).table == s.table
  {
    assert ThreadOk(s, t);
    if a.Advance? {
      assert ThreadOk(s, a.t);
    }
  }

  lemma LeavingStep(s: State, t: Tid)
    requires At(s, t) && Leaving(s.pcs[t])
    ensures var s' := StepRespawn(s, t, 0);
            && s'.table == s.table && (s'.pcs[t].Idle? <==> s.pcs[t].RespawnUnlock?)
            && (!s'.pcs[t].Idle? ==>
                  Leaving(s'.pcs[t]) && s'.pcs[t].ret == s.pcs[t].ret && (FlagUp(s'.pcs[t]) ==> FlagUp(s.pcs[t])))
  {
  }

  lemma {:induction false} OverReturned(g: Geometry, s: State, t: Tid, acts: seq<Action>)
    requires At(s, t) && Over(s.pcs[t]) && Legal(g, s, acts) && NoBegin(t, acts)
    ensures Returned(g, s, t, acts) == []
    decreases |acts|
  {
    if acts != [] {
      OthersKeep(g, s, t, acts[0]);
      OverReturned(g, Do(g, s, acts[0]), t, acts[1..]);
    }
  }

  lemma OthersInWindow(g: Geometry, s: State, t: Tid, a: Action)
    requires Inv(g, s) && At(s, t) && Enabled(s, a) && !Moves(a, t) && !(a.Begin? && a.t == t)
    ensures var s' := Do(g, s, a);
            At(s', t) && s'.pcs[t] == s.pcs[t] && (FlagUp(s.pcs[t]) ==> s'.table == s.table)
  {
    OthersKeep(g, s, t, a);
    if FlagUp(s.pcs[t]) {
      WindowStable(g, s, t, a);
    }
  }

  lemma LeavingAction(g: Geometry, s: State, t: Tid, a: Action)
    requires Inv(g, s) && At(s, t) && Leaving(s.pcs[t]) && Enabled(s, a) && !(a.Begin? && a.t == t)
    ensures var s' := Do(g, s, a);
            && At(s', t)
            && (s'.pcs[t].Idle? <==> Moves(a, t) && s.pcs[t].RespawnUnlock?)
            && (!s'.pcs[t].Idle? ==> Leaving(s'.pcs[t]) && s'.pcs[t].ret == s.pcs[t].ret)
            && (FlagUp(s'.pcs[t]) ==> FlagUp(s.pcs[t]) && s'.table == s.table)
  {
    if Moves(a, t) {
      LeavingStep(s, t);
    } else {
      OthersInWindow(g, s, t, a);
    }
  }

  /** A respawn on its way out takes its code along and leaves the table alone until the flag is cleared. */
  lemma {:induction false} LeavingRun(g: Geometry, s: State, t: Tid, acts: seq<Action>)
    requires Inv(g, s) && At(s, t) && Leaving(s.pcs[t]) && Legal(g, s, acts) && NoBegin(t, acts)
    ensures var s' := Exec(g, s, acts);
            && At(s', t)
            && (s'.pcs[t].Idle? || (Leaving(s'.pcs[t]) && s'.pcs[t].ret == s.pcs[t].ret))
            && Returned(g, s, t, acts) == (if s'.pcs[t].Idle? then [s.pcs[t].ret] else [])
            && (FlagUp(s'.pcs[t]) ==> FlagUp(s.pcs[t]) && s'.table == s.table)
    decreases |acts|
  {
    if acts != [] {
      var s' := Do(g, s, acts[0]);
      StepInv(g, s, acts[0]);
      LeavingAction(g, s, t, acts[0]);
      if s'.pcs[t].Idle? {
        OverStays(g, s', t, acts[1..]);
        OverReturned(g, s', t, acts[1..]);
      } else {
        LeavingRun(g, s', t, acts[1..]);
      }
    }
  }

  /** At rest no respawn is on its way out: whoever has the proxy lock gives it back. */
  lemma LeavingEnds(g: Geometry, s: State, t: Tid)
    requires Inv(g, s) && AtRest(s) && At(s, t)
    ensures !Leaving(s.pcs[t])
  {
    assert ThreadOk(s, t);
    RestBlocks(s, t);
    if WantsProxy(s.pcs[t]) {
      var p := BlockedOnProxy(g, s, t);
    }
  }

  /**
   * A core call that fails, over every interleaving: the respawn goes to its
   * exit with that code and returns nothing else, and until it has cleared the
   * flag the table stays as the failed call left it: as it was for an
   * unregister, unregistered for a register. Nothing can keep it from returning.
   */
  lemma FailedCore(g: Geometry, s: State, t: Tid, acts: seq<Action>, s': State)
    requires Later(g, s, t, acts, s') && AsksCore(s.pcs[t])
    requires acts != [] && Moves(acts[0], t) && acts[0].given.code < 0
    ensures s'.pcs[t].Idle? || (Leaving(s'.pcs[t]) && s'.pcs[t].ret == acts[0].given.code)
    ensures Returned(g, s, t, acts) == if s'.pcs[t].Idle? then [acts[0].given.code] else []
    ensures FlagUp(s'.pcs[t]) ==> s'.table == if s.pcs[t].Register? then Unregistered else s.table
    ensures AtRest(s') ==> s'.pcs[t].Idle?
  {
    ReachableInv(g, s);
    assert ThreadOk(s, t);
    StepInv(g, s, acts[0]);
    LeavingRun(g, Do(g, s, acts[0]), t, acts[1..]);
    RunInv(g, s, acts);
    if AtRest(s') {
      LeavingEnds(g, s', t);
    }
  }

  // ----- the table while the flag is up -----

  /** The table from the one before and the core's answers; what a full success leaves is said elsewhere. */
  predicate TableIs(table: Table, before: Table, answers: seq<int>) {
    && (answers == [] || answers[0] < 0 ==> table == before)
    && (answers != [] && answers[0] == 0 && answers != [0, 0] ==> table == Unregistered)
  }

  lemma TableStep(s: State, t: Tid, before: Table, answers: seq<int>, code: int)
    requires At(s, t) && FlagUp(s.pcs[t]) && ThreadOk(s, t) && Stage(true, s.pcs[t], answers) && code <= 0
    requires TableIs(s.table, before, answers)
    ensures var s' := StepRespawn(s, t, code);
            && TableIs(s'.table, before, if AsksCore(s.pcs[t]) then answers + [code] else answers)
            && (FlagUp(s'.pcs[t]) || s'.pcs[t].ClearUnlock? || Over(s'.pcs[t]))
  {
  }

  lemma TableAction(g: Geometry, s: State, t: Tid, before: Table, answers: seq<int>, a: Action)
    requires Inv(g, s) && At(s, t) && FlagUp(s.pcs[t])
    requires Stage(true, s.pcs[t], answers) && TableIs(s.table, before, answers)
    requires Enabled(s, a) && !(a.Begin? && a.t == t)
    ensures var s', told := Do(g, s, a), answers + Answer(s, t, a);
            && Inv(g, s') && At(s', t) && TableIs(s'.table, before, told)
            && (s'.pcs[t].ClearUnlock? || Over(s'.pcs[t]) || (FlagUp(s'.pcs[t]) && Stage(true, s'.pcs[t], told)))
  {
    StepInv(g, s, a);
    assert answers + [] == answers;
    if Moves(a, t) {
      assert ThreadOk(s, t);
      StageStep(s, t, true, answers, a.given.code);
      TableStep(s, t, before, answers, a.given.code);
    } else {
      OthersInWindow(g, s, t, a);
    }
  }

  lemma {:induction false} TableRun(g: Geometry, s: State, t: Tid, before: Table, answers: seq<int>, acts: seq<Action>)
    requires Inv(g, s) && At(s, t) && FlagUp(s.pcs[t])
    requires Stage(true, s.pcs[t], answers) && TableIs(s.table, before, answers)
    requires Legal(g, s, acts) && NoBegin(t, acts)
    requires var s' := Exec(g, s, acts); At(s', t) && FlagUp(s'.pcs[t])
    ensures var s', told := Exec(g, s, acts), answers + Answers(g, s, t, acts);
            Stage(true, s'.pcs[t], told) && TableIs(s'.table, before, told)
    decreases |acts|
  {
    if acts == [] {
      assert answers + [] == answers;
    } else {
      var s', told := Do(g, s, acts[0]), answers + Answer(s, t, acts[0]);
      TableAction(g, s, t, before, answers, acts[0]);
      AnswersCons(g, s, t, answers, acts);
      if Over(s'.pcs[t]) {
        OverStays(g, s', t, acts[1..]);
      } else if s'.pcs[t].ClearUnlock? {
        LeavingRun(g, s', t, acts[1..]);
      } else {
        TableRun(g, s', t, before, told, acts[1..]);
      }
    }
  }

  /**
   * The table from when the flag goes up until it is cleared, over every
   * interleaving: as it was until the core has unregistered it, so also after
   * -EBUSY or a failed unregister; unregistered from then on, so also after a
   * failed register; and after both succeed, the recipe, or nothing for a delete.
   */
  lemma RespawnTable(g: Geometry, s: State, t: Tid, acts: seq<Action>, s': State)
    requires Later(g, s, t, acts, s') && s.pcs[t].FlagUnlock? && FlagUp(s'.pcs[t])
    ensures var r, create, answers := View(s'.nodes), s'.pcs[t].job.create, Answers(g, s, t, acts);
            && |answers| <= 2
            && s'.table == if answers == [] || answers[0] < 0 then s.table
                           else if |answers| == 1 || answers[1] < 0 then Unregistered
                           else if create then Registered(r.list, r.count) else Registered([], 0)
  {
    ReachableInv(g, s);
    RunInv(g, s, acts);
    var answers := Answers(g, s, t, acts);
    TableRun(g, s, t, s.table, [], acts);
    assert [] + answers == answers;
    assert ThreadOk(s', t);
  }
}
