/** What `wait4` returns, over every run: once it has gone to sleep it returns a child, the child it
    collects is gone and its own, and the status it hands back is the one that child gave to `exit`.
  */
module WaitResults {
  import opened Outcomes
  import opened Processes
  import opened ExitProtocol
  import opened ExitProtocolTasks
  import opened LostWakeups
  import opened WakeDelivery

  /** A task inside `wait4` still has what its last look saw. */
  ghost predicate WaiterOk(procs: Procs, task: Task) {
    match task.pc
    case WaitLoop(target) => HasChild(procs, task.process, target)
    case WaitAgain(target) => ChildGone(procs, task.process, target)
    case Collect(c) => ChildGone(procs, task.process, Some(c))
    case _ => true
  }

  ghost predicate WaitersOk(k: Kernel) {
    forall t {:trigger WaiterOk(k.procs, k.tasks[t])} :: t in k.tasks ==> WaiterOk(k.procs, k.tasks[t])
  }

  // ---- a process keeps its children and the gone stay gone -------------------------------------------

  ghost predicate Keeps(procs: Procs, procs': Procs, p: nat) {
    p in procs' && forall c :: c in procs && procs[c].parent == Some(p) ==>
      c in procs' && procs'[c].parent == Some(p) && (Collectable(procs, c) ==> Collectable(procs', c))
  }

  lemma ChildStays(procs: Procs, procs': Procs, p: nat, c: nat)
    requires Family(procs) && Family(procs') && Keeps(procs, procs', p) && p in procs && c in procs[p].children
    ensures c in procs' && c in procs'[p].children && (Collectable(procs, c) ==> Collectable(procs', c))
  {
    assert PcbOk(procs, p);
    assert PcbOk(procs', c);
  }

  lemma GoneStays(procs: Procs, procs': Procs, p: nat, target: Option<nat>)
    requires Family(procs) && Family(procs') && Keeps(procs, procs', p) && ChildGone(procs, p, target)
    ensures ChildGone(procs', p, target)
  {
    if target.None? {
      var c :| c in procs[p].children && c in procs && procs[c].status.Some? && procs[c].threads == [];
      ChildStays(procs, procs', p, c);
      assert Collectable(procs', c);
    } else {
      assert Collectable(procs, target.value);
    }
  }

  lemma WaiterStays(procs: Procs, procs': Procs, task: Task)
    requires Family(procs) && Family(procs') && WaiterOk(procs, task) && Keeps(procs, procs', task.process)
    ensures WaiterOk(procs', task)
  {
    match task.pc
    case WaitLoop(target) =>
      if target.None? {
        ChildStays(procs, procs', task.process, procs[task.process].children[0]);
      }
    case WaitAgain(target) => GoneStays(procs, procs', task.process, target);
    case Collect(c) => GoneStays(procs, procs', task.process, Some(c));
    case _ =>
  }

  lemma CalmKeeps(procs: Procs, procs': Procs, p: nat)
    requires Calm(procs, procs', p)
    ensures Keeps(procs, procs', p)
  {
  }

  lemma ReparentLeaves(procs: Procs, q: nat, p: nat)
    requires Family(procs) && q in procs && p in procs && p != q
    ensures Keeps(procs, Reparented(procs, q, INIT_PID), p)
  {
    ReparentPresent(procs, q, p);
    var procs' := Reparented(procs, q, INIT_PID);
    if q != INIT_PID {
      forall c | c in procs
        ensures procs'[c].status == procs[c].status && procs'[c].threads == procs[c].threads
      {
        assert procs'[c] == Moved(procs, q, INIT_PID, c);
      }
    }
  }

  lemma KeepsTwice(procs: Procs, mid: Procs, procs': Procs, p: nat)
    requires Keeps(procs, mid, p) && Keeps(mid, procs', p)
    ensures Keeps(procs, procs', p)
  {
  }

  lemma CollectLeaves(k: Kernel, c: nat, p: nat)
    requires Base(k) && Me(k).pc == Collect(c) && p in k.procs && p != Me(k).process && p != c
    ensures Keeps(k.procs, DoCollect(k, c).procs, p)
  {
    if CanCollect(k.procs, Me(k).process, c) {
      var mid := Disowned(k.procs, Me(k).process, c);
      DisownCalm(k.procs, Me(k).process, c, p);
      CalmKeeps(k.procs, mid, p);
      DisownedFamily(k.procs, Me(k).process, c);
      ReapCalm(mid, c, p);
      CalmKeeps(mid, Reaped(mid, c), p);
      KeepsTwice(k.procs, mid, Reaped(mid, c), p);
    }
  }

  lemma RetireLeaves(k: Kernel, t: nat, q: nat, p: nat)
    requires Base(k) && k.current == REAPER && Me(k).pc == Retire(t, q) && p in k.procs && p != q
    ensures Keeps(k.procs, DoRetire(k, t, q).procs, p)
  {
    var mid := At(k.(procs := ThreadDropped(k.procs, q, t)), TakeSpaces);
    DropKeeps(k, t, q, mid);
    assert Keeps(k.procs, mid.procs, p);
    ReapCalm(mid.procs, q, p);
    CalmKeeps(mid.procs, Reaped(mid.procs, q), p);
    KeepsTwice(k.procs, mid.procs, Reaped(mid.procs, q), p);
  }

  lemma ReapLeaves(procs: Procs, q: nat, p: nat)
    requires Family(procs) && p in procs && procs[p].threads != []
    ensures Keeps(procs, Reaped(procs, q), p)
  {
    ReapCalm(procs, q, p);
    CalmKeeps(procs, Reaped(procs, q), p);
  }

  lemma CreateLeaves(procs: Procs, id: nat, parent: Option<nat>, space: Option<nat>, thread: nat, p: nat)
    requires Family(procs) && id !in procs && p in procs && parent != Some(p)
    ensures Keeps(procs, Created(procs, id, parent, space, thread), p)
  {
    CreateCalm(procs, id, parent, space, thread, p);
    CalmKeeps(procs, Created(procs, id, parent, space, thread), p);
  }

  /** A step of another task keeps the children of a live process. */
  lemma StepLeaves(k: Kernel, e: Event, k': Kernel, p: nat, t: nat)
    requires Base(k) && Enabled(k, e) && k' == Next(k, e) && t in k.tasks && p == k.tasks[t].process
    requires e.Switch? || t != k.current
    ensures Keeps(k.procs, k'.procs, p)
  {
    assert TaskOk(k.procs, t, k.tasks[t]) && TaskOk(k.procs, k.current, Me(k));
    if e.Act? {
      ActLeaves(k, e.choice, e.to, k', p);
    }
  }

  lemma ActLeaves(k: Kernel, choice: Choice, to: nat, k': Kernel, p: nat)
    requires Base(k) && Enabled(k, Act(choice, to)) && k' == Acted(k, choice, to)
    requires p in k.procs && p != Me(k).process && k.procs[p].threads != []
    requires Me(k).pc.Retire? ==> p != Me(k).pc.process
    ensures Keeps(k.procs, k'.procs, p)
  {
    assert TaskOk(k.procs, k.current, Me(k));
    var pc := Me(k).pc;
    if pc == User {
      ChosenLeaves(k, choice, p);
    } else if pc.Spawn? {
      CreateLeaves(k.procs, k.nextPid, Some(Me(k).process), Some(pc.image), k.nextTask, p);
    } else if WaitPc(pc) {
      assert k'.procs == k.procs;
    } else if ExecPc(pc) {
      ExecLeaves(k, p);
    } else if FreePc(pc) {
      FreeLeaves(k, p);
    } else if ReapPc(pc) {
      ReapStepLeaves(k, p);
    } else {
      ExitLeaves(k, to, p);
    }
  }

  lemma ChosenLeaves(k: Kernel, choice: Choice, p: nat)
    requires Base(k) && Fixed(k) && p in k.procs
    ensures Keeps(k.procs, Chosen(k, choice).procs, p)
  {
    if choice.SpawnKernelTask? {
      CreateLeaves(k.procs, k.nextPid, None, None, k.nextTask, p);
    }
  }

  lemma ExecLeaves(k: Kernel, p: nat)
    requires Base(k) && Fixed(k) && ExecPc(Me(k).pc) && p in k.procs
    ensures Keeps(k.procs, ExecActed(k).procs, p)
  {
  }

  lemma FreeLeaves(k: Kernel, p: nat)
    requires Base(k) && Fixed(k) && FreePc(Me(k).pc)
    requires p in k.procs && p != Me(k).process && k.procs[p].threads != []
    ensures Keeps(k.procs, FreeActed(k).procs, p)
  {
    if Me(k).pc.Collect? {
      var c := Me(k).pc.child;
      if CanCollect(k.procs, Me(k).process, c) {
        CollectLeaves(k, c, p);
      }
    } else if Me(k).pc.CollectReap? {
      ReapLeaves(k.procs, Me(k).pc.child, p);
    }
  }

  lemma ReapStepLeaves(k: Kernel, p: nat)
    requires Base(k) && Fixed(k) && ReapPc(Me(k).pc) && k.current == REAPER
    requires p in k.procs && (Me(k).pc.Retire? ==> p != Me(k).pc.process)
    ensures Keeps(k.procs, ReapActed(k).procs, p)
  {
    if Me(k).pc.Retire? {
      RetireLeaves(k, Me(k).pc.task, Me(k).pc.process, p);
    }
  }

  lemma ExitLeaves(k: Kernel, to: nat, p: nat)
    requires Base(k) && Fixed(k) && to in k.tasks && ExitPc(Me(k).pc) && p in k.procs && p != Me(k).process
    ensures Keeps(k.procs, ExitActed(k, to).procs, p)
  {
    if Me(k).pc.Reparent? {
      ReparentLeaves(k.procs, Me(k).process, p);
    }
  }

  // ---- every step ----------------------------------------------------------------------------------------

  /** A task that does not run is where it was, unless it is the one the reaper retires. */
  lemma ReapUnmoved(k: Kernel, t: nat)
    requires Base(k) && Fixed(k) && ReapPc(Me(k).pc) && t in ReapActed(k).tasks && t != k.current
    ensures t in k.tasks && Unmoved(k, ReapActed(k), t)
  {
    if Me(k).pc == ReaperWake {
      WakeUnmoved(k, Reap, t);
    }
  }

  lemma StaysPut(k: Kernel, e: Event, k': Kernel, t: nat)
    requires Base(k) && Enabled(k, e) && k' == Next(k, e)
    requires t in k.tasks && t in k'.tasks && (e.Switch? || t != k.current)
    ensures Unmoved(k, k', t)
  {
    if e.Act? && ReapPc(Me(k).pc) {
      assert k' == ReapActed(k);
      ReapUnmoved(k, t);
    } else {
      Bystander(k, e, k', t);
    }
  }

  lemma OtherWaiters(k: Kernel, e: Event, k': Kernel, t: nat)
    requires Base(k) && Enabled(k, e) && k' == Next(k, e) && Family(k'.procs)
    requires t in k.tasks && t in k'.tasks && (e.Switch? || t != k.current) && WaiterOk(k.procs, k.tasks[t])
    ensures WaiterOk(k'.procs, k'.tasks[t])
  {
    StaysPut(k, e, k', t);
    StepLeaves(k, e, k', k.tasks[t].process, t);
    WaiterMoves(k, k', t);
  }

  lemma WaiterMoves(k: Kernel, k': Kernel, t: nat)
    requires Family(k.procs) && Family(k'.procs) && t in k.tasks && Unmoved(k, k', t)
    requires WaiterOk(k.procs, k.tasks[t]) && Keeps(k.procs, k'.procs, k.tasks[t].process)
    ensures WaiterOk(k'.procs, k'.tasks[t])
  {
    WaiterStays(k.procs, k'.procs, k.tasks[t]);
  }

  /** The running task itself: its look is still true when it has moved on. */
  lemma RunningWaiter(k: Kernel, choice: Choice, to: nat, k': Kernel)
    requires Base(k) && WaitersOk(k) && Enabled(k, Act(choice, to)) && k' == Acted(k, choice, to)
    requires k.current in k'.tasks
    ensures WaiterOk(k'.procs, k'.tasks[k.current])
  {
    assert WaiterOk(k.procs, Me(k)) && TaskOk(k.procs, k.current, Me(k));
    var pc := Me(k).pc;
    if WaitPc(pc) && pc != ReaperWait {
      LookIs(k.procs, Me(k).process, pc.target);
      LookedWaiter(k, to, k');
    } else {
      Elsewhere(k, choice, to, k');
    }
  }

  lemma LookedWaiter(k: Kernel, to: nat, k': Kernel)
    requires Fixed(k) && to in k.tasks && WaitPc(Me(k).pc) && Me(k).pc != ReaperWait && k' == WaitActed(k, to)
    requires Family(k.procs) && WaiterOk(k.procs, Me(k))
    ensures WaiterOk(k'.procs, k'.tasks[k.current])
  {
    var p, target := Me(k).process, Me(k).pc.target;
    LookIs(k.procs, p, target);
    var answer := Look(k.procs, p, target);
    if answer.Child? {
      CollectIsGone(k.procs, p, target, answer.pid);
    }
  }

  lemma CollectIsGone(procs: Procs, p: nat, target: Option<nat>, c: nat)
    requires Family(procs) && ToCollect(procs, p, target, c)
    ensures ChildGone(procs, p, target) && ChildGone(procs, p, Some(c))
  {
    if target.None? {
      var children := procs[p].children;
      var i :| 0 <= i < |children| && children[i] == c && GoneAt(procs, children, i);
      assert PcbOk(procs, p) && c in children;
    }
  }

  predicate Waiting(pc: Pc) {
    pc.WaitLoop? || pc.WaitAgain? || pc.Collect?
  }

  lemma Elsewhere(k: Kernel, choice: Choice, to: nat, k': Kernel)
    requires Base(k) && Enabled(k, Act(choice, to)) && k' == Acted(k, choice, to) && k.current in k'.tasks
    requires !(WaitPc(Me(k).pc) && Me(k).pc != ReaperWait)
    ensures !Waiting(k'.tasks[k.current].pc)
  {
    assert TaskOk(k.procs, k.current, Me(k));
    var pc := Me(k).pc;
    if FreePc(pc) {
      FreeElsewhere(k);
    } else if ReapPc(pc) {
      ReapElsewhere(k);
    } else if ExitPc(pc) {
      ExitElsewhere(k, to);
    } else if pc == User {
      ChosenElsewhere(k, choice);
    } else if ExecPc(pc) {
      ExecElsewhere(k);
    }
  }

  lemma ChosenElsewhere(k: Kernel, choice: Choice)
    requires Base(k) && Fixed(k) && Me(k).pc == User
    ensures !Waiting(Chosen(k, choice).tasks[k.current].pc)
  {
  }

  lemma ExecElsewhere(k: Kernel)
    requires Fixed(k) && ExecPc(Me(k).pc)
    ensures !Waiting(ExecActed(k).tasks[k.current].pc)
  {
  }

  lemma FreeElsewhere(k: Kernel)
    requires Fixed(k) && FreePc(Me(k).pc)
    ensures !Waiting(FreeActed(k).tasks[k.current].pc)
  {
  }

  lemma ReapElsewhere(k: Kernel)
    requires Base(k) && Fixed(k) && ReapPc(Me(k).pc) && k.current == REAPER
    ensures k.current in ReapActed(k).tasks && !Waiting(ReapActed(k).tasks[k.current].pc)
  {
    if Me(k).pc == ReaperWake {
      WakeAllKeeps(k, Reap, ReapActed(k));
    }
  }

  lemma ExitElsewhere(k: Kernel, to: nat)
    requires Base(k) && Fixed(k) && to in k.tasks && ExitPc(Me(k).pc)
    ensures k.current in ExitActed(k, to).tasks && !Waiting(ExitActed(k, to).tasks[k.current].pc)
  {
  }

  lemma WaitersStep(k: Kernel, e: Event, k': Kernel)
    requires Base(k) && WaitersOk(k) && Enabled(k, e) && k' == Next(k, e) && Base(k')
    ensures WaitersOk(k')
  {
    forall t | t in k'.tasks
      ensures WaiterOk(k'.procs, k'.tasks[t])
    {
      if t in k.tasks && (e.Switch? || t != k.current) {
        assert WaiterOk(k.procs, k.tasks[t]);
        OtherWaiters(k, e, k', t);
      } else if t in k.tasks {
        RunningWaiter(k, e.choice, e.to, k');
      } else {
        NewTask(k, e, k', t);
      }
    }
  }

  lemma NewTask(k: Kernel, e: Event, k': Kernel, t: nat)
    requires Base(k) && Enabled(k, e) && k' == Next(k, e) && t in k'.tasks && t !in k.tasks
    ensures k'.tasks[t].pc == User
  {
    var pc := Me(k).pc;
    if e.Act? && pc != User && !pc.Spawn? {
      NoNewTask(k, e.to);
      NoNewTaskEither(k);
    }
  }

  lemma NoNewTask(k: Kernel, to: nat)
    requires Base(k) && Fixed(k) && to in k.tasks
    ensures WaitPc(Me(k).pc) ==> WaitActed(k, to).tasks.Keys == k.tasks.Keys
    ensures ReapPc(Me(k).pc) ==> ReapActed(k).tasks.Keys <= k.tasks.Keys
    ensures ExitPc(Me(k).pc) ==> ExitActed(k, to).tasks.Keys == k.tasks.Keys
  {
  }

  lemma NoNewTaskEither(k: Kernel)
    requires Fixed(k)
    ensures ExecPc(Me(k).pc) ==> ExecActed(k).tasks.Keys == k.tasks.Keys
    ensures FreePc(Me(k).pc) ==> FreeActed(k).tasks.Keys == k.tasks.Keys
  {
  }

  // ---- every run -------------------------------------------------------------------------------------------

  lemma {:induction false} WaitersRun(k: Kernel, events: seq<Event>, k': Kernel)
    requires Base(k) && WaitersOk(k) && Reaches(k, events, k')
    ensures Base(k') && WaitersOk(k')
    decreases |events|
  {
    if events != [] {
      var next := Next(k, events[0]);
      BaseStep(k, events[0], next);
      WaitersStep(k, events[0], next);
      WaitersRun(next, events[1..], k');
    }
  }

  lemma FromBoot(first: nat, events: seq<Event>, k: Kernel)
    requires (first == IDLE || first == REAPER || first == 2) && Reaches(Boot(first), events, k)
    ensures Base(k) && WaitersOk(k)
  {
    var boot := Boot(first);
    BootWaiters(first, boot);
    WaitersRun(boot, events, k);
  }

  lemma BootWaiters(first: nat, boot: Kernel)
    requires (first == IDLE || first == REAPER || first == 2) && boot == Boot(first)
    ensures Base(boot) && WaitersOk(boot)
  {
    BootBase(first);
  }

  /** The first look: ECHILD exactly without such a child, 0 exactly when told not to hang with none
      gone, otherwise the child to collect is the one asked for, or the oldest that is gone. */
  lemma FirstLook(k: Kernel, e: Event, target: Option<nat>, noHang: bool, pc: Pc)
    requires Base(k) && Enabled(k, e) && e.Act? && Me(k).pc == WaitCheck(target, noHang)
    requires pc == Next(k, e).tasks[k.current].pc
    ensures pc == User <==> !HasChild(k.procs, Me(k).process, target) ||
                            (noHang && !ChildGone(k.procs, Me(k).process, target))
    ensures forall c: nat :: pc == Collect(c) <==> ToCollect(k.procs, Me(k).process, target, c)
    ensures pc == User || pc == WaitLoop(target) || pc.Collect?
  {
    LookIs(k.procs, Me(k).process, target);
    if pc.Collect? {
      CollectIsGone(k.procs, Me(k).process, target, pc.child);
    }
  }

  /** The loop sleeps exactly while no child it waits for is gone. */
  lemma LoopSleeps(first: nat, events: seq<Event>, k: Kernel, e: Event, target: Option<nat>, k': Kernel)
    requires (first == IDLE || first == REAPER || first == 2) && Reaches(Boot(first), events, k)
    requires Enabled(k, e) && e.Act? && Me(k).pc == WaitLoop(target) && k' == Next(k, e)
    ensures if ChildGone(k.procs, Me(k).process, target) then k'.tasks[k.current] == Me(k).(pc := WaitAgain(target))
            else k'.tasks[k.current] == Me(k).(state := Blocked) && k'.childWait == k.childWait + [k.current]
  {
    FromBoot(first, events, k);
    assert WaiterOk(k.procs, Me(k));
    LookIs(k.procs, Me(k).process, target);
  }

  /** A `wait4` that has slept collects a child: it never comes back with nothing or with ECHILD. */
  lemma SleeperCollects(first: nat, events: seq<Event>, k: Kernel, e: Event, target: Option<nat>, pc: Pc)
    requires (first == IDLE || first == REAPER || first == 2) && Reaches(Boot(first), events, k)
    requires Enabled(k, e) && e.Act? && Me(k).pc == WaitAgain(target) && pc == Next(k, e).tasks[k.current].pc
    ensures pc.Collect? && ToCollect(k.procs, Me(k).process, target, pc.child)
  {
    FromBoot(first, events, k);
    assert WaiterOk(k.procs, Me(k));
    LookIs(k.procs, Me(k).process, target);
  }

  /** Collecting always succeeds: the child's status comes back and the child is its parent's no more. */
  lemma CollectReturns(first: nat, events: seq<Event>, k: Kernel, e: Event, c: nat, k': Kernel)
    requires (first == IDLE || first == REAPER || first == 2) && Reaches(Boot(first), events, k)
    requires Enabled(k, e) && e.Act? && Me(k).pc == Collect(c) && k' == Next(k, e)
    ensures c in k.procs && k.procs[c].parent == Some(Me(k).process) && k.procs[c].threads == []
    ensures k.procs[c].status.Some? && k'.tasks[k.current].pc == CollectReap(c, k.procs[c].status.value)
    ensures c !in k'.procs || k'.procs[c].parent.None?
    ensures Me(k).process in k'.procs && c !in k'.procs[Me(k).process].children
  {
    FromBoot(first, events, k);
    assert WaiterOk(k.procs, Me(k)) && TaskOk(k.procs, k.current, Me(k));
    CollectStep(k, e, c, k');
    CollectedNoMore(k.procs, Me(k).process, c);
  }

  lemma CollectStep(k: Kernel, e: Event, c: nat, k': Kernel)
    requires Enabled(k, e) && e.Act? && Me(k).pc == Collect(c) && k' == Next(k, e)
    requires CanCollect(k.procs, Me(k).process, c)
    ensures k'.procs == Reaped(Disowned(k.procs, Me(k).process, c), c)
    ensures k'.tasks[k.current].pc == CollectReap(c, k.procs[c].status.value)
  {
    assert k' == DoCollect(k, c);
  }

  lemma CollectedNoMore(procs: Procs, p: nat, c: nat)
    requires CanCollect(procs, p, c) && procs[p].threads != []
    ensures var procs' := Reaped(Disowned(procs, p, c), c);
            && (c !in procs' || procs'[c].parent.None?)
            && p in procs' && c !in procs'[p].children
  {
  }

  // ---- the status ------------------------------------------------------------------------------------------

  /** Somewhere in the run a task of `p` calls `exit` with `status`. */
  ghost predicate GivenToExit(k: Kernel, events: seq<Event>, p: nat, status: int)
    decreases |events|
  {
    events != [] && Enabled(k, events[0]) &&
    (ExitsWith(k, events[0], p, status) || GivenToExit(Next(k, events[0]), events[1..], p, status))
  }

  predicate ExitsWith(k: Kernel, e: Event, p: nat, status: int)
    requires k.current in k.tasks
  {
    e.Act? && e.choice == StartExit(status) && Me(k).pc == User && Me(k).process == p
  }

  /** The status is in the record of `p`, on its way there, or being handed to the parent. */
  ghost predicate Holds(k: Kernel, p: nat, status: int) {
    || (p in k.procs && k.procs[p].status == Some(status))
    || exists t :: t in k.tasks && Carries(k.tasks[t], p, status)
  }

  predicate Carries(task: Task, p: nat, status: int) {
    || (task.process == p && Exiting(task.pc) && task.pc.status == status)
    || task.pc == CollectReap(p, status)
  }

  /** No status appears or changes. */
  ghost predicate StatusesStay(procs: Procs, procs': Procs) {
    forall p :: p in procs' && procs'[p].status.Some? ==> p in procs && procs[p].status == procs'[p].status
  }

  lemma ReparentStatuses(procs: Procs, q: nat)
    requires q in procs
    ensures StatusesStay(procs, Reparented(procs, q, INIT_PID))
  {
    var procs' := Reparented(procs, q, INIT_PID);
    if q != INIT_PID {
      forall p | p in procs'
        ensures procs'[p].status == procs[p].status
      {
        assert procs'[p] == Moved(procs, q, INIT_PID, p);
      }
    }
  }

  lemma ExitStatuses(k: Kernel, to: nat)
    requires Base(k) && Fixed(k) && to in k.tasks && ExitPc(Me(k).pc) && !Me(k).pc.SetStatus?
    ensures StatusesStay(k.procs, ExitActed(k, to).procs)
  {
    if Me(k).pc.Reparent? {
      ReparentStatuses(k.procs, Me(k).process);
    }
  }

  lemma ReapedStatuses(procs: Procs, q: nat)
    ensures StatusesStay(procs, Reaped(procs, q))
  {
  }

  lemma CollectStatuses(k: Kernel, c: nat)
    requires k.current in k.tasks
    ensures StatusesStay(k.procs, DoCollect(k, c).procs)
  {
    if CanCollect(k.procs, Me(k).process, c) {
      var mid := Disowned(k.procs, Me(k).process, c);
      assert StatusesStay(k.procs, mid);
      ReapedStatuses(mid, c);
    }
  }

  lemma FreeStatuses(k: Kernel)
    requires Fixed(k) && FreePc(Me(k).pc)
    ensures StatusesStay(k.procs, FreeActed(k).procs)
  {
    if Me(k).pc.Collect? {
      CollectStatuses(k, Me(k).pc.child);
    } else if Me(k).pc.CollectReap? {
      ReapedStatuses(k.procs, Me(k).pc.child);
    }
  }

  lemma ReapStatuses(k: Kernel)
    requires Fixed(k) && ReapPc(Me(k).pc)
    ensures StatusesStay(k.procs, ReapActed(k).procs)
  {
    if Me(k).pc.Retire? {
      var dropped := ThreadDropped(k.procs, Me(k).pc.process, Me(k).pc.task);
      assert StatusesStay(k.procs, dropped);
      ReapedStatuses(dropped, Me(k).pc.process);
    }
  }

  lemma ExecStatuses(k: Kernel)
    requires Fixed(k) && ExecPc(Me(k).pc)
    ensures StatusesStay(k.procs, ExecActed(k).procs)
  {
  }

  lemma CreateStatuses(procs: Procs, id: nat, parent: Option<nat>, space: Option<nat>, thread: nat)
    ensures StatusesStay(procs, Created(procs, id, parent, space, thread))
  {
  }

  lemma ChosenStatuses(k: Kernel, choice: Choice)
    requires Fixed(k)
    ensures StatusesStay(k.procs, Chosen(k, choice).procs)
  {
    if choice.SpawnKernelTask? {
      CreateStatuses(k.procs, k.nextPid, None, None, k.nextTask);
    }
  }

  lemma Statuses(k: Kernel, choice: Choice, to: nat, k': Kernel)
    requires Base(k) && Enabled(k, Act(choice, to)) && k' == Acted(k, choice, to) && !Me(k).pc.SetStatus?
    ensures StatusesStay(k.procs, k'.procs)
  {
    assert TaskOk(k.procs, k.current, Me(k));
    var pc := Me(k).pc;
    if pc == User {
      ChosenStatuses(k, choice);
    } else if pc.Spawn? {
      CreateStatuses(k.procs, k.nextPid, Some(Me(k).process), Some(pc.image), k.nextTask);
    } else if WaitPc(pc) {
      assert k'.procs == k.procs;
    } else if ExecPc(pc) {
      ExecStatuses(k);
    } else if FreePc(pc) {
      FreeStatuses(k);
    } else if ReapPc(pc) {
      ReapStatuses(k);
    } else {
      ExitStatuses(k, to);
    }
  }

  /** A status in a record was there, or the exiting task brought it. */
  lemma StatusBack(k: Kernel, e: Event, k': Kernel, p: nat, status: int)
    requires Base(k) && Enabled(k, e) && k' == Next(k, e) && p in k'.procs && k'.procs[p].status == Some(status)
    ensures Holds(k, p, status)
  {
    if e.Act? && Me(k).pc.SetStatus? {
      assert k' == DoSetStatus(k, Me(k).pc.status);
      assert p in k.procs;
      if k.procs[p].status != Some(status) {
        assert Carries(Me(k), p, status);
      }
    } else if e.Act? {
      Statuses(k, e.choice, e.to, k');
    }
  }

  lemma CarriedBack(k: Kernel, e: Event, k': Kernel, t: nat, p: nat, status: int)
    requires Base(k) && Enabled(k, e) && k' == Next(k, e) && t in k'.tasks && Carries(k'.tasks[t], p, status)
    ensures Holds(k, p, status) || ExitsWith(k, e, p, status)
  {
    if t !in k.tasks {
      NewTask(k, e, k', t);
    } else if e.Switch? || t != k.current {
      StaysPut(k, e, k', t);
      assert Carries(k.tasks[t], p, status);
    } else {
      RunnerCarries(k, e.choice, e.to, k', p, status);
    }
  }

  lemma RunnerCarries(k: Kernel, choice: Choice, to: nat, k': Kernel, p: nat, status: int)
    requires Base(k) && Enabled(k, Act(choice, to)) && k' == Acted(k, choice, to)
    requires k.current in k'.tasks && Carries(k'.tasks[k.current], p, status)
    ensures Holds(k, p, status) || ExitsWith(k, Act(choice, to), p, status)
  {
    assert TaskOk(k.procs, k.current, Me(k));
    var pc := Me(k).pc;
    if pc == User {
      ChosenCarries(k, choice, p, status);
    } else if WaitPc(pc) {
      WaitCarries(k, to, p, status);
    } else if ExecPc(pc) {
      ExecCarries(k, p, status);
    } else if FreePc(pc) {
      FreeCarries(k, p, status);
    } else if ReapPc(pc) {
      ReapCarries(k, p, status);
    } else if ExitPc(pc) {
      ExitCarries(k, to, p, status);
    }
  }

  lemma ChosenCarries(k: Kernel, choice: Choice, p: nat, status: int)
    requires Base(k) && Fixed(k) && Me(k).pc == User && Carries(Chosen(k, choice).tasks[k.current], p, status)
    ensures choice == StartExit(status) && Me(k).process == p
  {
  }

  lemma WaitCarries(k: Kernel, to: nat, p: nat, status: int)
    requires Fixed(k) && to in k.tasks && WaitPc(Me(k).pc)
    ensures !Carries(WaitActed(k, to).tasks[k.current], p, status)
  {
  }

  lemma ExecCarries(k: Kernel, p: nat, status: int)
    requires Fixed(k) && ExecPc(Me(k).pc)
    ensures !Carries(ExecActed(k).tasks[k.current], p, status)
  {
  }

  lemma FreeCarries(k: Kernel, p: nat, status: int)
    requires Fixed(k) && FreePc(Me(k).pc) && Carries(FreeActed(k).tasks[k.current], p, status)
    ensures Holds(k, p, status)
  {
    assert Me(k).pc.Collect?;
  }

  lemma ReapCarries(k: Kernel, p: nat, status: int)
    requires Base(k) && Fixed(k) && ReapPc(Me(k).pc) && k.current == REAPER
    ensures k.current in ReapActed(k).tasks && !Carries(ReapActed(k).tasks[k.current], p, status)
  {
    if Me(k).pc == ReaperWake {
      WakeAllKeeps(k, Reap, ReapActed(k));
    }
  }

  lemma ExitCarries(k: Kernel, to: nat, p: nat, status: int)
    requires Base(k) && Fixed(k) && to in k.tasks && ExitPc(Me(k).pc)
    requires Carries(ExitActed(k, to).tasks[k.current], p, status)
    ensures Carries(Me(k), p, status) && Holds(k, p, status)
  {
    if Me(k).pc.WakeWaiters? {
      WakeAllKeeps(k, WakeReaper(Me(k).pc.status), ExitActed(k, to));
    }
  }

  lemma {:induction false} StatusTraced(k: Kernel, events: seq<Event>, k': Kernel, p: nat, status: int)
    requires Base(k) && Reaches(k, events, k') && Holds(k', p, status)
    ensures Holds(k, p, status) || GivenToExit(k, events, p, status)
    decreases |events|
  {
    if events != [] {
      var e, next := events[0], Next(k, events[0]);
      BaseStep(k, e, next);
      StatusTraced(next, events[1..], k', p, status);
      if Holds(next, p, status) {
        HoldsBack(k, e, next, p, status);
      }
    }
  }

  lemma HoldsBack(k: Kernel, e: Event, k': Kernel, p: nat, status: int)
    requires Base(k) && Enabled(k, e) && k' == Next(k, e) && Holds(k', p, status)
    ensures Holds(k, p, status) || ExitsWith(k, e, p, status)
  {
    if p in k'.procs && k'.procs[p].status == Some(status) {
      StatusBack(k, e, k', p, status);
    } else {
      var t :| t in k'.tasks && Carries(k'.tasks[t], p, status);
      CarriedBack(k, e, k', t, p, status);
    }
  }

  /** Whatever status a record holds, or `wait4` hands back for `p`, a task of `p` gave it to `exit`. */
  lemma StatusIsGiven(first: nat, events: seq<Event>, k: Kernel, p: nat, status: int)
    requires (first == IDLE || first == REAPER || first == 2) && Reaches(Boot(first), events, k)
    requires || (p in k.procs && k.procs[p].status == Some(status))
             || exists t :: t in k.tasks && k.tasks[t].pc == CollectReap(p, status)
    ensures GivenToExit(Boot(first), events, p, status)
  {
    BootBase(first);
    if t :| t in k.tasks && k.tasks[t].pc == CollectReap(p, status) {
      assert Carries(k.tasks[t], p, status);
    }
    StatusTraced(Boot(first), events, k, p, status);
    BootHolds(first, p, status);
  }

  lemma BootHolds(first: nat, p: nat, status: int)
    ensures !Holds(Boot(first), p, status)
  {
  }
}
