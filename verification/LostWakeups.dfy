/** No wake-up of a waiting parent is lost: a task asleep in `wait4` although its look at the
    table would now find something always has a `wake_all` of CHILD_WAIT still to come, and a
    retired thread always finds the reaper awake or about to be woken.
  */
module LostWakeups {
  import opened Outcomes
  import opened Processes
  import opened ExitProtocol
  import opened ExitProtocolTasks

  /** A sleeper still has the child it waits for; if it could collect, a wake-up is pending. */
  ghost predicate SleeperOk(procs: Procs, task: Task, pending: bool) {
    && task.pc.WaitLoop? && Look(procs, task.process, task.pc.target) != NoChild
    && (Look(procs, task.process, task.pc.target) != NotYet ==> pending)
  }

  ghost predicate WaitOk(k: Kernel) {
    forall t {:trigger SleeperOk(k.procs, k.tasks[t], WakePending(k))} :: t in k.childWait && t in k.tasks ==>
      SleeperOk(k.procs, k.tasks[t], WakePending(k))
  }

  /** With a task to retire the reaper is awake, or the exiting task has yet to wake it. */
  ghost predicate ReaperOk(k: Kernel) {
    k.exitQueue != [] && k.reaperWaits ==>
      k.current in k.tasks && (Me(k).pc.Reparent? || Me(k).pc.WakeWaiters? || Me(k).pc.WakeReaper?)
  }

  // ---- what a change to the table can do to a sleeper -----------------------------------------------------

  /** The children of `p` are what they were, and as collectable. */
  ghost predicate Calm(procs: Procs, procs': Procs, p: nat) {
    && Present(procs, procs', p) && p in procs && procs'[p].children == procs[p].children
    && forall c :: c in procs && procs[c].parent == Some(p) ==> (Collectable(procs', c) <==> Collectable(procs, c))
  }

  /** No child of `p` is gone. */
  ghost predicate Present(procs: Procs, procs': Procs, p: nat) {
    && p in procs' && (p in procs && procs[p].children != [] ==> procs'[p].children != [])
    && forall c :: c in procs && procs[c].parent == Some(p) ==> c in procs' && procs'[c].parent == Some(p)
  }

  lemma {:induction false} FirstExitedSame(procs: Procs, procs': Procs, children: seq<nat>)
    requires forall c :: c in children ==> (Collectable(procs', c) <==> Collectable(procs, c))
    ensures FirstExited(procs', children) == FirstExited(procs, children)
  {
    if children != [] && !Collectable(procs, children[0]) {
      assert Collectable(procs', children[0]) <==> Collectable(procs, children[0]);
      FirstExitedSame(procs, procs', children[1..]);
    }
  }

  lemma CalmLook(procs: Procs, procs': Procs, p: nat, target: Option<nat>)
    requires Family(procs) && Calm(procs, procs', p) && Look(procs, p, target) != NoChild
    ensures Look(procs', p, target) == Look(procs, p, target)
  {
    if target.None? {
      assert PcbOk(procs, p);
      FirstExitedSame(procs, procs', procs[p].children);
    }
  }

  lemma SleeperStays(procs: Procs, procs': Procs, task: Task, pending: bool, pending': bool)
    requires Family(procs) && SleeperOk(procs, task, pending)
    requires if pending' then Present(procs, procs', task.process) else !pending && Calm(procs, procs', task.process)
    ensures SleeperOk(procs', task, pending')
  {
    if !pending' {
      CalmLook(procs, procs', task.process, task.pc.target);
    }
  }

  /** A step that leaves the sleepers asleep and does not use up a wake-up. */
  lemma WaitFrame(k: Kernel, k': Kernel)
    requires Base(k) && WaitOk(k) && k'.childWait == k.childWait && (WakePending(k) ==> WakePending(k'))
    requires forall t :: t in k.childWait ==> t in k'.tasks && k'.tasks[t] == k.tasks[t]
    requires forall t {:trigger k.tasks[t].process} :: t in k.childWait && t in k.tasks ==>
      if WakePending(k') then Present(k.procs, k'.procs, k.tasks[t].process)
      else Calm(k.procs, k'.procs, k.tasks[t].process)
    ensures WaitOk(k')
  {
    forall t | t in k'.childWait && t in k'.tasks
      ensures SleeperOk(k'.procs, k'.tasks[t], WakePending(k'))
    {
      assert SleeperOk(k.procs, k.tasks[t], WakePending(k));
      SleeperStays(k.procs, k'.procs, k.tasks[t], WakePending(k), WakePending(k'));
    }
  }

  /** The table does not change. */
  lemma QuietStep(k: Kernel, k': Kernel)
    requires Base(k) && WaitOk(k) && k'.procs == k.procs && k'.childWait == k.childWait
    requires (WakePending(k) ==> WakePending(k'))
    requires forall t :: t in k.childWait ==> t in k'.tasks && k'.tasks[t] == k.tasks[t]
    ensures WaitOk(k')
  {
    forall t | t in k.childWait && t in k.tasks
      ensures Calm(k.procs, k'.procs, k.tasks[t].process)
    {
      assert TaskOk(k.procs, t, k.tasks[t]);
    }
    WaitFrame(k, k');
  }

  /** A sleeper's process is not the running task's. */
  lemma SleeperElsewhere(k: Kernel, t: nat)
    requires Base(k) && t in k.childWait
    ensures t in k.tasks && t != k.current && t != REAPER && k.tasks[t].pc.WaitLoop?
    ensures k.tasks[t].process in k.procs && k.tasks[t].process != Me(k).process
  {
    assert TaskOk(k.procs, t, k.tasks[t]) && TaskOk(k.procs, k.current, Me(k));
  }

  lemma CreateCalm(procs: Procs, id: nat, parent: Option<nat>, space: Option<nat>, thread: nat, p: nat)
    requires Family(procs) && id !in procs && p in procs && parent != Some(p)
    ensures Calm(procs, Created(procs, id, parent, space, thread), p)
  {
  }

  lemma RecordCalm(procs: Procs, q: nat, r: Pcb, p: nat)
    requires q in procs && p in procs && r.parent == procs[q].parent && r.children == procs[q].children
    requires (r.status.Some? && r.threads == []) <==> Collectable(procs, q)
    ensures Calm(procs, procs[q := r], p)
  {
  }

  lemma DisownCalm(procs: Procs, q: nat, c: nat, p: nat)
    requires Family(procs) && q in procs && c in procs && procs[c].parent == Some(q) && p in procs && p != q
    ensures Calm(procs, Disowned(procs, q, c), p)
  {
  }

  lemma ReapCalm(procs: Procs, q: nat, p: nat)
    requires Family(procs) && p in procs && (CanReap(procs, q) ==> p != q)
    ensures Calm(procs, Reaped(procs, q), p)
  {
    if CanReap(procs, q) {
      ReapedFamily(procs, q);
    }
  }

  lemma ReparentPresent(procs: Procs, q: nat, p: nat)
    requires Family(procs) && q in procs && p in procs && p != q
    ensures Present(procs, Reparented(procs, q, INIT_PID), p)
  {
    var procs' := Reparented(procs, q, INIT_PID);
    if q != INIT_PID {
      assert procs'[p] == Moved(procs, q, INIT_PID, p);
      assert PcbOk(procs, q);
      forall c | c in procs && procs[c].parent == Some(p)
        ensures c in procs' && procs'[c].parent == Some(p)
      {
        assert procs'[c] == Moved(procs, q, INIT_PID, c);
      }
    }
  }

  // ---- steps that change the table ----------------------------------------------------------------------------

  lemma SpawnWaits(k: Kernel, k': Kernel, parent: Option<nat>, space: Option<nat>)
    requires Base(k) && WaitOk(k) && k'.childWait == k.childWait && (WakePending(k) ==> WakePending(k'))
    requires forall t :: t in k.childWait ==> t in k'.tasks && k'.tasks[t] == k.tasks[t]
    requires k'.procs == Created(k.procs, k.nextPid, parent, space, k.nextTask)
    requires (parent.Some? ==> parent.value == Me(k).process)
    ensures WaitOk(k')
  {
    forall t | t in k.childWait && t in k.tasks
      ensures Calm(k.procs, k'.procs, k.tasks[t].process)
    {
      SleeperElsewhere(k, t);
      CreateCalm(k.procs, k.nextPid, parent, space, k.nextTask, k.tasks[t].process);
    }
    WaitFrame(k, k');
  }

  /** One record changes, but not its links nor whether it can be collected. */
  lemma RecordWaits(k: Kernel, k': Kernel, q: nat, r: Pcb)
    requires Base(k) && WaitOk(k) && k'.childWait == k.childWait && (WakePending(k) ==> WakePending(k'))
    requires forall t :: t in k.childWait ==> t in k'.tasks && k'.tasks[t] == k.tasks[t]
    requires q in k.procs && k'.procs == k.procs[q := r] && r.parent == k.procs[q].parent
    requires r.children == k.procs[q].children
    requires (r.status.Some? && r.threads == []) <==> Collectable(k.procs, q)
    ensures WaitOk(k')
  {
    forall t | t in k.childWait && t in k.tasks
      ensures Calm(k.procs, k'.procs, k.tasks[t].process)
    {
      SleeperElsewhere(k, t);
      RecordCalm(k.procs, q, r, k.tasks[t].process);
    }
    WaitFrame(k, k');
  }

  lemma ReapWaits(k: Kernel, k': Kernel, q: nat)
    requires Base(k) && WaitOk(k) && k'.childWait == k.childWait && (WakePending(k) ==> WakePending(k'))
    requires forall t :: t in k.childWait ==> t in k'.tasks && k'.tasks[t] == k.tasks[t]
    requires k'.procs == Reaped(k.procs, q)
    ensures WaitOk(k')
  {
    forall t | t in k.childWait && t in k.tasks
      ensures Calm(k.procs, k'.procs, k.tasks[t].process)
    {
      assert TaskOk(k.procs, t, k.tasks[t]);
      ReapCalm(k.procs, q, k.tasks[t].process);
    }
    WaitFrame(k, k');
  }

  lemma DisownWaits(k: Kernel, k': Kernel, c: nat)
    requires Base(k) && WaitOk(k) && CanCollect(k.procs, Me(k).process, c)
    requires k' == k.(procs := Disowned(k.procs, Me(k).process, c))
    ensures WaitOk(k')
  {
    forall t | t in k.childWait && t in k.tasks
      ensures Calm(k.procs, k'.procs, k.tasks[t].process)
    {
      SleeperElsewhere(k, t);
      DisownCalm(k.procs, Me(k).process, c, k.tasks[t].process);
    }
    assert WakePending(k') <==> WakePending(k);
    WaitFrame(k, k');
  }

  /** Orphans may make init's look succeed: the wake-up follows at once. */
  lemma ReparentWaits(k: Kernel, k': Kernel, status: int)
    requires Base(k) && WaitOk(k) && Me(k).pc == Reparent(status) && k'.childWait == k.childWait
    requires k'.current == k.current
    requires k'.procs == Reparented(k.procs, Me(k).process, INIT_PID) && k'.tasks == At(k, WakeWaiters(status)).tasks
    ensures WaitOk(k')
  {
    assert TaskOk(k.procs, k.current, Me(k));
    forall t | t in k.childWait && t in k.tasks
      ensures Present(k.procs, k'.procs, k.tasks[t].process)
    {
      SleeperElsewhere(k, t);
      ReparentPresent(k.procs, Me(k).process, k.tasks[t].process);
    }
    forall t | t in k.childWait
      ensures t in k'.tasks && k'.tasks[t] == k.tasks[t]
    {
      SleeperElsewhere(k, t);
    }
    WaitFrame(k, k');
  }

  /** Dropping the last thread makes a child collectable: the reaper has its wake-up to do. */
  lemma DropWaits(k: Kernel, k': Kernel, t: nat, p: nat)
    requires Base(k) && WaitOk(k) && k.current == REAPER && Me(k).pc == Retire(t, p)
    requires k' == At(k.(procs := ThreadDropped(k.procs, p, t)), TakeSpaces)
    ensures WaitOk(k') && WakePending(k')
  {
    DropKeeps(k, t, p, k');
    forall x | x in k.childWait && x in k.tasks
      ensures Present(k.procs, k'.procs, k.tasks[x].process)
    {
      SleeperElsewhere(k, x);
    }
    forall x | x in k.childWait
      ensures x in k'.tasks && k'.tasks[x] == k.tasks[x]
    {
      SleeperElsewhere(k, x);
    }
    WaitFrame(k, k');
  }

  // ---- every step ------------------------------------------------------------------------------------------------

  /** Only the running task's own entry may differ for the sleepers to be as they were. */
  lemma SleepersUntouched(k: Kernel, k': Kernel)
    requires Base(k)
    requires forall t :: t in k.tasks && t != k.current && t != REAPER && k.tasks[t].state != Exited ==>
               t in k'.tasks && k'.tasks[t] == k.tasks[t]
    ensures forall t :: t in k.childWait ==> t in k'.tasks && k'.tasks[t] == k.tasks[t]
  {
    forall t | t in k.childWait
      ensures t in k'.tasks && k'.tasks[t] == k.tasks[t]
    {
      SleeperElsewhere(k, t);
    }
  }

  lemma SpawnStep(k: Kernel, k': Kernel, parent: Option<nat>, space: Option<nat>)
    requires Base(k) && WaitOk(k) && ReaperOk(k) && Me(k).state == Ready && k.current != REAPER
    requires k'.childWait == k.childWait && k'.exitQueue == k.exitQueue && k'.reaperWaits == k.reaperWaits
    requires k'.current == k.current
    requires k'.procs == Created(k.procs, k.nextPid, parent, space, k.nextTask)
    requires (parent.Some? ==> parent.value == Me(k).process)
    requires k'.tasks == k.tasks[k.current := Me(k).(pc := User)][k.nextTask := Task(k.nextPid, space, Ready, User)]
    ensures WaitOk(k') && ReaperOk(k')
  {
    assert TaskOk(k.procs, k.current, Me(k));
    SleepersUntouched(k, k');
    SpawnWaits(k, k', parent, space);
  }

  lemma ChosenWaits(k: Kernel, choice: Choice, k': Kernel)
    requires Base(k) && WaitOk(k) && ReaperOk(k) && Fixed(k) && Me(k).pc == User && k.current != IDLE
    requires k' == Chosen(k, choice)
    ensures WaitOk(k') && ReaperOk(k')
  {
    assert TaskOk(k.procs, k.current, Me(k));
    if choice.SpawnKernelTask? {
      SpawnStep(k, k', None, None);
    } else {
      SleepersUntouched(k, k');
      QuietStep(k, k');
    }
  }

  /** The running task moves on; the table and the queues stay. The reaper's move must not use
      up its wake-up. */
  lemma MoveWaits(k: Kernel, k': Kernel)
    requires Base(k) && WaitOk(k) && ReaperOk(k) && Me(k).state == Ready && k'.procs == k.procs && SameQueues(k, k')
    requires k'.current == k.current && k.current in k'.tasks && k'.tasks == k.tasks[k.current := Me(k')]
    requires k.current == REAPER && WakePending(k) ==> WakePending(k')
    ensures WaitOk(k') && ReaperOk(k')
  {
    assert TaskOk(k.procs, k.current, Me(k));
    SleepersUntouched(k, k');
    QuietStep(k, k');
  }

  /** Looking and falling asleep is one step, so the sleeper's look fails when it falls asleep. */
  lemma BlockWaits(k: Kernel, target: Option<nat>, to: nat, k': Kernel)
    requires Base(k) && WaitOk(k) && ReaperOk(k) && Fixed(k) && to in k.tasks && k.tasks[to].state == Ready
    requires to != k.current
    requires Me(k).pc == WaitLoop(target) && k' == DoWaitLoop(k, target, to)
    ensures WaitOk(k') && ReaperOk(k')
  {
    assert TaskOk(k.procs, k.current, Me(k)) && TaskOk(k.procs, to, k.tasks[to]);
    SleepersUntouched(k, k');
    if k'.current == k.current {
      QuietStep(k, k');
    } else {
      assert WakePending(k) ==> WakePending(k');
      var j := k'.(childWait := k.childWait);
      QuietStep(k, j);
      OneMoreAsleep(j, k', k.current);
    }
  }

  lemma OneMoreAsleep(j: Kernel, k': Kernel, c: nat)
    requires WaitOk(j) && k' == j.(childWait := j.childWait + [c]) && c in j.tasks && j.tasks[c].pc.WaitLoop?
    requires Look(j.procs, j.tasks[c].process, j.tasks[c].pc.target) == NotYet
    ensures WaitOk(k')
  {
    forall t | t in k'.childWait && t in k'.tasks
      ensures SleeperOk(k'.procs, k'.tasks[t], WakePending(k'))
    {
      if t in j.childWait {
        assert SleeperOk(j.procs, j.tasks[t], WakePending(j));
      }
    }
  }

  lemma CollectWaits(k: Kernel, c: nat, k': Kernel)
    requires Base(k) && WaitOk(k) && ReaperOk(k) && Me(k).pc == Collect(c) && k' == DoCollect(k, c)
    ensures WaitOk(k') && ReaperOk(k')
  {
    assert TaskOk(k.procs, k.current, Me(k));
    if CanCollect(k.procs, Me(k).process, c) {
      SleepersUntouched(k, k');
      var d := k.(procs := Disowned(k.procs, Me(k).process, c));
      DisownKeeps(k, c, d);
      DisownWaits(k, d, c);
      ReapWaits(d, k', c);
    } else {
      MoveWaits(k, k');
    }
  }

  lemma CollectReapWaits(k: Kernel, c: nat, k': Kernel)
    requires Base(k) && WaitOk(k) && ReaperOk(k) && Me(k).pc.CollectReap? && Me(k).pc.child == c
    requires k' == At(DoReap(k, c), TakeSpaces)
    ensures WaitOk(k') && ReaperOk(k')
  {
    assert TaskOk(k.procs, k.current, Me(k));
    SleepersUntouched(k, k');
    ReapWaits(k, k', c);
  }

  lemma FreeStepWaits(k: Kernel, k': Kernel)
    requires Base(k) && WaitOk(k) && ReaperOk(k) && Fixed(k) && FreePc(Me(k).pc) && k' == FreeActed(k)
    ensures WaitOk(k') && ReaperOk(k')
  {
    assert TaskOk(k.procs, k.current, Me(k));
    match Me(k).pc
    case Collect(c) => CollectWaits(k, c, k');
    case CollectReap(c, _) => CollectReapWaits(k, c, k');
    case TakeSpaces => MoveWaits(k, k');
    case FreeSpaces(spaces) => MoveWaits(k, k');
  }

  lemma WakeWaits(k: Kernel, pc: Pc, k': Kernel)
    requires Base(k) && ReaperOk(k) && k' == DoWakeAll(k, pc)
    requires (Me(k).pc.WakeWaiters? && pc == WakeReaper(Me(k).pc.status)) || (Me(k).pc == ReaperWake && pc == Reap)
    ensures WaitOk(k') && ReaperOk(k')
  {
    assert TaskOk(k.procs, k.current, Me(k));
    WakeAllKeeps(k, pc, k');
  }

  lemma WakeReaperWaits(k: Kernel, status: int, k': Kernel)
    requires Base(k) && WaitOk(k) && ReaperOk(k) && Me(k).pc == WakeReaper(status) && k' == DoWakeReaper(k, status)
    ensures WaitOk(k') && ReaperOk(k')
  {
    assert TaskOk(k.procs, k.current, Me(k));
    SleepersUntouched(k, k');
    QuietStep(k, k');
  }

  /** The exiting task is still a thread of its process, so nothing becomes collectable yet. */
  lemma SetStatusWaits(k: Kernel, status: int, k': Kernel)
    requires Base(k) && WaitOk(k) && ReaperOk(k) && Me(k).pc == SetStatus(status) && k' == DoSetStatus(k, status)
    ensures WaitOk(k') && ReaperOk(k')
  {
    assert TaskOk(k.procs, k.current, Me(k));
    SleepersUntouched(k, k');
    var p := Me(k).process;
    RecordWaits(k, k', p, k.procs[p].(status := Some(status)));
  }

  lemma ReapTaskWaits(k: Kernel, k': Kernel)
    requires Base(k) && WaitOk(k) && ReaperOk(k) && Me(k).pc == Reap && k' == DoReapTask(k)
    ensures WaitOk(k') && ReaperOk(k')
  {
    assert TaskOk(k.procs, k.current, Me(k));
    assert k.exitQueue != [] ==> k.exitQueue[0] in k.exitQueue;
    SleepersUntouched(k, k');
    QuietStep(k, k');
  }

  lemma RetireWaits(k: Kernel, t: nat, p: nat, k': Kernel)
    requires Base(k) && WaitOk(k) && ReaperOk(k) && k.current == REAPER && Me(k).pc == Retire(t, p)
    requires k' == DoRetire(k, t, p)
    ensures WaitOk(k') && ReaperOk(k')
  {
    var d := At(k.(procs := ThreadDropped(k.procs, p, t)), TakeSpaces);
    DropWaits(k, d, t, p);
    DropKeeps(k, t, p, d);
    ReapWaits(d, k', p);
  }

  lemma ReapStepWaits(k: Kernel, k': Kernel)
    requires Base(k) && WaitOk(k) && ReaperOk(k) && Fixed(k) && ReapPc(Me(k).pc) && k' == ReapActed(k)
    ensures WaitOk(k') && ReaperOk(k')
  {
    assert TaskOk(k.procs, k.current, Me(k));
    match Me(k).pc
    case Reap => ReapTaskWaits(k, k');
    case Retire(t, p) => RetireWaits(k, t, p, k');
    case ReaperWake => WakeWaits(k, Reap, k');
  }

  lemma SwitchWaits(k: Kernel, to: nat, k': Kernel)
    requires Base(k) && WaitOk(k) && ReaperOk(k) && to in k.tasks && k.tasks[to].state == Ready && !Exiting(Me(k).pc)
    requires k' == Switched(k, to)
    ensures WaitOk(k') && ReaperOk(k')
  {
    QuietStep(k, k');
  }

  lemma ReaperWaitWaits(k: Kernel, to: nat, k': Kernel)
    requires Base(k) && WaitOk(k) && ReaperOk(k) && to in k.tasks && k.tasks[to].state == Ready && to != k.current
    requires Me(k).pc == ReaperWait && k' == DoReaperWait(k, to)
    ensures WaitOk(k') && ReaperOk(k')
  {
    assert TaskOk(k.procs, k.current, Me(k));
    SleepersUntouched(k, k');
    QuietStep(k, k');
  }

  lemma ExecSetWaits(k: Kernel, image: nat, k': Kernel)
    requires Base(k) && WaitOk(k) && ReaperOk(k) && Fixed(k) && Me(k).pc == ExecSet(image) && k' == DoExecSet(k, image)
    ensures WaitOk(k') && ReaperOk(k')
  {
    assert TaskOk(k.procs, k.current, Me(k));
    SleepersUntouched(k, k');
    var p := Me(k).process;
    RecordWaits(k, k', p, k.procs[p].(space := Some(image)));
  }

  lemma ExecStepWaits(k: Kernel, k': Kernel)
    requires Base(k) && WaitOk(k) && ReaperOk(k) && Fixed(k) && ExecPc(Me(k).pc) && k' == ExecActed(k)
    ensures WaitOk(k') && ReaperOk(k')
  {
    assert TaskOk(k.procs, k.current, Me(k));
    if Me(k).pc.ExecSet? {
      ExecSetWaits(k, Me(k).pc.image, k');
    } else {
      MoveWaits(k, k');
    }
  }

  lemma SleepStepWaits(k: Kernel, to: nat, k': Kernel)
    requires Base(k) && WaitOk(k) && ReaperOk(k) && Fixed(k) && to in k.tasks && k.tasks[to].state == Ready
    requires WaitPc(Me(k).pc) && k' == WaitActed(k, to)
    requires (Me(k).pc.WaitLoop? || Me(k).pc == ReaperWait ==> to != k.current)
    ensures WaitOk(k') && ReaperOk(k')
  {
    assert TaskOk(k.procs, k.current, Me(k));
    match Me(k).pc
    case WaitCheck(target, noHang) => MoveWaits(k, k');
    case WaitLoop(target) => BlockWaits(k, target, to, k');
    case WaitAgain(target) => MoveWaits(k, k');
    case ReaperWait => ReaperWaitWaits(k, to, k');
  }

  lemma ExitStepWaits(k: Kernel, to: nat, k': Kernel)
    requires Base(k) && WaitOk(k) && ReaperOk(k) && Fixed(k) && to in k.tasks && k.tasks[to].state == Ready
    requires ExitPc(Me(k).pc) && k' == ExitActed(k, to)
    ensures WaitOk(k') && ReaperOk(k')
  {
    match Me(k).pc
    case Reparent(status) => ReparentWaits(k, k', status);
    case WakeWaiters(status) => WakeWaits(k, WakeReaper(status), k');
    case WakeReaper(status) => WakeReaperWaits(k, status, k');
    case SetStatus(status) => SetStatusWaits(k, status, k');
    case Leave => SwitchWaits(k, to, k');
  }

  lemma WaitStep(k: Kernel, e: Event, k': Kernel)
    requires Base(k) && WaitOk(k) && ReaperOk(k) && Enabled(k, e) && k' == Next(k, e)
    ensures WaitOk(k') && ReaperOk(k')
  {
    assert TaskOk(k.procs, k.current, Me(k));
    var pc := Me(k).pc;
    if e.Switch? {
      SwitchWaits(k, e.to, k');
    } else if pc == User {
      ChosenWaits(k, e.choice, k');
    } else if pc.Spawn? {
      SpawnStep(k, k', Some(Me(k).process), Some(pc.image));
    } else if WaitPc(pc) {
      SleepStepWaits(k, e.to, k');
    } else if ExecPc(pc) {
      ExecStepWaits(k, k');
    } else if FreePc(pc) {
      FreeStepWaits(k, k');
    } else if ReapPc(pc) {
      ReapStepWaits(k, k');
    } else {
      ExitStepWaits(k, e.to, k');
    }
  }

  // ---- every run --------------------------------------------------------------------------------------------------

  lemma BootWaits(first: nat)
    ensures WaitOk(Boot(first)) && ReaperOk(Boot(first))
  {
  }

  lemma {:induction false} RunKeeps(k: Kernel, events: seq<Event>, k': Kernel)
    requires Base(k) && WaitOk(k) && ReaperOk(k) && Reaches(k, events, k')
    ensures Base(k') && WaitOk(k') && ReaperOk(k')
    decreases |events|
  {
    if events != [] {
      var next := Next(k, events[0]);
      BaseStep(k, events[0], next);
      WaitStep(k, events[0], next);
      RunKeeps(next, events[1..], k');
    }
  }

  /** Whatever the interleaving since boot, a task asleep in `wait4` has the child it waits for, and
      once that child is gone, or any of them if it waits for any, a wake-up is to come. */
  lemma NoLostWakeup(first: nat, events: seq<Event>, k: Kernel, t: nat)
    requires first == IDLE || first == REAPER || first == 2
    requires Reaches(Boot(first), events, k) && t in k.tasks && k.tasks[t].state == Blocked && t != REAPER
    ensures k.tasks[t].pc.WaitLoop? && t in k.childWait
    ensures HasChild(k.procs, k.tasks[t].process, k.tasks[t].pc.target)
    ensures ChildGone(k.procs, k.tasks[t].process, k.tasks[t].pc.target) ==> WakePending(k)
  {
    BootBase(first);
    BootWaits(first);
    RunKeeps(Boot(first), events, k);
    assert SleeperOk(k.procs, k.tasks[t], WakePending(k));
    LookIs(k.procs, k.tasks[t].process, k.tasks[t].pc.target);
  }

  /** ... parents and children agree, and a retired thread never waits for a sleeping reaper. */
  lemma FamilyAlways(first: nat, events: seq<Event>, k: Kernel)
    requires first == IDLE || first == REAPER || first == 2
    requires Reaches(Boot(first), events, k)
    ensures Family(k.procs) && REAPER in k.tasks && k.current in k.tasks
    ensures k.exitQueue != [] && k.tasks[REAPER].state == Blocked ==>
      k.tasks[k.current].pc.Reparent? || k.tasks[k.current].pc.WakeWaiters? || k.tasks[k.current].pc.WakeReaper?
  {
    BootBase(first);
    BootWaits(first);
    RunKeeps(Boot(first), events, k);
  }

  // ---- entries that are not blocked -------------------------------------------------------------------------------

  /** `wake_all` gives up at an entry that is not blocked, as one left behind by `wake_task`
      would be: the tasks queued after it sleep on. */
  lemma {:induction false} StaleEntryStopsWakeAll(tasks: Tasks, queue: seq<nat>, i: nat)
    requires Distinct(queue) && i < |queue| && forall j :: 0 <= j < |queue| ==> queue[j] in tasks
    requires tasks[queue[i]].state != Blocked && forall j :: 0 <= j < i ==> tasks[queue[j]].state == Blocked
    ensures WakeAll(tasks, queue).1 == queue[i + 1..]
    ensures forall j :: 0 <= j < i ==> WakeAll(tasks, queue).0[queue[j]].state == Ready
    ensures forall t :: t in tasks && t !in queue[..i] ==> WakeAll(tasks, queue).0[t] == tasks[t]
  {
    if i > 0 {
      var next := tasks[queue[0] := tasks[queue[0]].(state := Ready)];
      var rest := queue[1..];
      StaleEntryStopsWakeAll(next, rest, i - 1);
      assert rest[i..] == queue[i + 1..];
      assert queue[..i] == [queue[0]] + rest[..i - 1];
      forall j | 0 <= j < i
        ensures WakeAll(tasks, queue).0[queue[j]].state == Ready
      {
        if j > 0 {
          assert queue[j] == rest[j - 1];
        } else {
          assert queue[0] !in rest[..i - 1];
        }
      }
    }
  }

  predicate Awake(tasks: Tasks, t: nat) {
    t in tasks && tasks[t].state != Blocked
  }

  /** So everyone queued is woken exactly when nobody blocked is queued behind such an entry. */
  lemma WakeAllComplete(tasks: Tasks, queue: seq<nat>, i: nat)
    requires Distinct(queue) && i < |queue| && forall j :: 0 <= j < |queue| ==> queue[j] in tasks
    requires tasks[queue[i]].state != Blocked && forall j :: 0 <= j < i ==> tasks[queue[j]].state == Blocked
    ensures (forall j :: 0 <= j < |queue| ==> Awake(WakeAll(tasks, queue).0, queue[j])) <==>
            (forall j :: i < j < |queue| ==> Awake(tasks, queue[j]))
  {
    var woken := WakeAll(tasks, queue).0;
    forall j | 0 <= j < |queue|
      ensures Awake(woken, queue[j]) <==> j <= i || Awake(tasks, queue[j])
    {
      WokenOrNot(tasks, queue, i, j);
    }
  }

  lemma WokenOrNot(tasks: Tasks, queue: seq<nat>, i: nat, j: nat)
    requires Distinct(queue) && i < |queue| && j < |queue| && forall j :: 0 <= j < |queue| ==> queue[j] in tasks
    requires tasks[queue[i]].state != Blocked && forall j :: 0 <= j < i ==> tasks[queue[j]].state == Blocked
    ensures Awake(WakeAll(tasks, queue).0, queue[j]) <==> j <= i || Awake(tasks, queue[j])
  {
    StaleEntryStopsWakeAll(tasks, queue, i);
    if j >= i {
      assert queue[j] !in queue[..i];
    }
  }
}
