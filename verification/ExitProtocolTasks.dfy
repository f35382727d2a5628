/** What every step of the exit protocol keeps about tasks, queues and the process table. */
module ExitProtocolTasks {
  import opened Outcomes
  import opened Processes
  import opened ExitProtocol

  predicate ReaperOnly(pc: Pc) {
    pc == ReaperWait || pc == Reap || pc.Retire? || pc == ReaperWake
  }

  predicate ReaperPc(pc: Pc) {
    ReaperOnly(pc) || pc == TakeSpaces || pc.FreeSpaces?
  }

  /** A task is the one thread of its process, and its process has a status once it has left. */
  ghost predicate TaskOk(procs: Procs, t: nat, task: Task) {
    && task.process in procs && procs[task.process].threads == [t]
    && (procs[task.process].status.Some? <==> task.pc == Leave)
    && (Exiting(task.pc) && !task.pc.Reparent? ==> procs[task.process].children == [])
    && PcOk(t, task)
  }

  predicate PcOk(t: nat, task: Task) {
    && (task.state == Blocked ==> if t == REAPER then task.pc == ReaperWait else task.pc.WaitLoop?)
    && (task.state == Exited <==> ExitPc(task.pc))
    && (task.state == Exited ==> task.process != INIT_PID)
    && (if t == REAPER then ReaperPc(task.pc) else !ReaperOnly(task.pc))
    && (t == IDLE ==> task.pc == User && task.state == Ready)
  }

  ghost predicate TasksOk(procs: Procs, tasks: Tasks) {
    && IDLE in tasks && REAPER in tasks
    && forall t {:trigger TaskOk(procs, t, tasks[t])} :: t in tasks ==> TaskOk(procs, t, tasks[t])
  }

  ghost predicate QueuesOk(k: Kernel) {
    && Distinct(k.childWait) && Distinct(k.exitQueue)
    && (forall t :: t in k.childWait <==> t in k.tasks && t != REAPER && k.tasks[t].state == Blocked)
    && (forall t :: t in k.exitQueue <==> t in k.tasks && k.tasks[t].state == Exited)
    && (REAPER in k.tasks ==> (k.reaperWaits <==> k.tasks[REAPER].state == Blocked))
  }

  /** Only the running task is inside `exit_current`. */
  ghost predicate RunningOk(k: Kernel) {
    && k.current in k.tasks && k.tasks[k.current].state != Blocked
    && forall t :: t in k.tasks && Exiting(k.tasks[t].pc) ==> t == k.current
  }

  /** The task the reaper holds was the last thread of an exited process. */
  ghost predicate RetireOk(k: Kernel) {
    REAPER in k.tasks && k.tasks[REAPER].pc.Retire? ==>
      var Retire(t, p) := k.tasks[REAPER].pc;
      t !in k.tasks && t < k.nextTask && p in k.procs && k.procs[p].threads == [t] && k.procs[p].status.Some?
  }

  ghost predicate IdsOk(k: Kernel) {
    (forall p :: p in k.procs ==> p < k.nextPid) && forall t :: t in k.tasks ==> t < k.nextTask
  }

  ghost predicate Base(k: Kernel) {
    Family(k.procs) && TasksOk(k.procs, k.tasks) && QueuesOk(k) && RunningOk(k) && RetireOk(k) && IdsOk(k)
  }

  // ---- small changes -----------------------------------------------------------------------------------

  /** One task changes; the table as others see it does not. */
  lemma OneTask(procs: Procs, procs': Procs, tasks: Tasks, c: nat, task: Task)
    requires TasksOk(procs, tasks) && c in tasks && TaskOk(procs', c, task)
    requires forall t {:trigger TaskOk(procs, t, tasks[t])} :: t in tasks && t != c ==> TaskOk(procs', t, tasks[t])
    ensures TasksOk(procs', tasks[c := task])
  {
    var tasks' := tasks[c := task];
    forall t | t in tasks'
      ensures TaskOk(procs', t, tasks'[t])
    {
      assert t != c ==> TaskOk(procs, t, tasks[t]);
    }
  }

  /** Nothing the invariant reads changes but the running task. */
  predicate OnlyMe(k: Kernel, k': Kernel, task: Task)
    requires k.current in k.tasks
  {
    && k'.tasks == k.tasks[k.current := task] && k'.procs == k.procs && SameQueues(k, k')
    && k'.current == k.current && k'.nextPid == k.nextPid && k'.nextTask == k.nextTask
  }

  predicate SameQueues(k: Kernel, k': Kernel) {
    k'.childWait == k.childWait && k'.exitQueue == k.exitQueue && k'.reaperWaits == k.reaperWaits
  }

  lemma MovesOn(k: Kernel, k': Kernel, task: Task)
    requires Base(k) && OnlyMe(k, k', task) && task.process == Me(k).process
    requires Me(k).state == Ready && task.state == Ready && PcOk(k.current, task) && !task.pc.Retire?
    ensures Base(k')
  {
    assert TaskOk(k.procs, k.current, Me(k));
    OneTask(k.procs, k.procs, k.tasks, k.current, task);
  }

  /** The running task and the table change; who is asleep or has exited does not. */
  lemma Settle(k: Kernel, k': Kernel, task: Task)
    requires Base(k) && k'.tasks == k.tasks[k.current := task] && task.state == Me(k).state && SameQueues(k, k')
    requires k'.current == k.current && k'.nextPid == k.nextPid && k'.nextTask == k.nextTask
    requires k'.procs.Keys <= k.procs.Keys
    requires Family(k'.procs) && TasksOk(k'.procs, k'.tasks) && RetireOk(k')
    ensures Base(k')
  {
  }

  /** A step of the reaper's prey does not concern it. */
  lemma RetireStays(k: Kernel, k': Kernel)
    requires RetireOk(k) && (REAPER in k'.tasks ==> REAPER in k.tasks && k'.tasks[REAPER].pc == k.tasks[REAPER].pc)
    requires k'.tasks.Keys == k.tasks.Keys && k'.nextTask == k.nextTask
    requires forall p :: p in k.procs && k.procs[p].status.Some? && |k.procs[p].threads| == 1 ==>
      p in k'.procs && k'.procs[p].threads == k.procs[p].threads && k'.procs[p].status == k.procs[p].status
    ensures RetireOk(k')
  {
  }

  lemma SwitchKeeps(k: Kernel, to: nat, k': Kernel)
    requires Base(k) && to in k.tasks && k.tasks[to].state == Ready && !Exiting(Me(k).pc)
    requires k' == Switched(k, to)
    ensures Base(k')
  {
  }

  lemma ExitKeeps(k: Kernel, status: int, k': Kernel)
    requires Base(k) && Me(k).pc == User && k.current != IDLE && Me(k).process != INIT_PID
    requires k' == DoExit(k, status)
    ensures Base(k')
  {
    assert TaskOk(k.procs, k.current, Me(k));
    OneTask(k.procs, k.procs, k.tasks, k.current, Me(k).(state := Exited, pc := Reparent(status)));
  }

  /** A waiter goes to sleep. */
  lemma BlockKeeps(k: Kernel, to: nat, k': Kernel)
    requires Base(k) && Me(k).pc.WaitLoop? && to in k.tasks && k.tasks[to].state == Ready && to != k.current
    requires k' == Switched(k.(tasks := k.tasks[k.current := Me(k).(state := Blocked)],
        childWait := k.childWait + [k.current]), to)
    ensures Base(k')
  {
    assert TaskOk(k.procs, k.current, Me(k));
    OneTask(k.procs, k.procs, k.tasks, k.current, Me(k).(state := Blocked));
  }

  lemma ReaperBlockKeeps(k: Kernel, to: nat, k': Kernel)
    requires Base(k) && Me(k).pc == ReaperWait && to in k.tasks && k.tasks[to].state == Ready && to != k.current
    requires k' == Switched(k.(tasks := k.tasks[k.current := Me(k).(state := Blocked)], reaperWaits := true), to)
    ensures Base(k')
  {
    assert TaskOk(k.procs, k.current, Me(k));
    OneTask(k.procs, k.procs, k.tasks, k.current, Me(k).(state := Blocked));
  }

  /** A new process and its thread; `task` is the running task afterwards. */
  lemma SpawnKeeps(k: Kernel, k': Kernel, parent: Option<nat>, space: Option<nat>, task: Task)
    requires Base(k) && Me(k).state == Ready && k.current != REAPER && k.current != IDLE
    requires parent.Some? ==> parent.value == Me(k).process
    requires task == Me(k).(pc := User) && SameQueues(k, k') && k'.current == k.current
    requires k'.procs == Created(k.procs, k.nextPid, parent, space, k.nextTask)
    requires k'.tasks == k.tasks[k.current := task][k.nextTask := Task(k.nextPid, space, Ready, User)]
    requires k'.nextPid == k.nextPid + 1 && k'.nextTask == k.nextTask + 1
    ensures Base(k')
  {
    assert TaskOk(k.procs, k.current, Me(k));
    assert Family(k'.procs) by {
      CreatedFamily(k.procs, k.nextPid, parent, space, k.nextTask);
    }
    assert TasksOk(k'.procs, k'.tasks) by {
      SpawnedTasks(k.procs, k.tasks, k.current, k.nextPid, k.nextTask, parent, space);
    }
    SpawnedQueues(k, k', Task(k.nextPid, space, Ready, User), task);
  }

  lemma SpawnedQueues(k: Kernel, k': Kernel, child: Task, task: Task)
    requires QueuesOk(k) && RunningOk(k) && IdsOk(k) && child.state == Ready && child.pc == User
    requires task == Me(k).(pc := User) && SameQueues(k, k') && k'.current == k.current && k.current != REAPER
    requires k'.tasks == k.tasks[k.current := task][k.nextTask := child] && Me(k).state == Ready && REAPER in k.tasks
    ensures QueuesOk(k') && RunningOk(k')
  {
    assert k.nextTask !in k.tasks;
  }

  lemma SpawnedTasks(procs: Procs, tasks: Tasks, c: nat, pid: nat, t: nat, parent: Option<nat>, space: Option<nat>)
    requires TasksOk(procs, tasks) && c in tasks && tasks[c].state == Ready && c != REAPER && pid !in procs
    requires t !in tasks
    requires parent.Some? ==> parent.value == tasks[c].process
    ensures TasksOk(Created(procs, pid, parent, space, t),
                    tasks[c := tasks[c].(pc := User)][t := Task(pid, space, Ready, User)])
  {
    var procs' := Created(procs, pid, parent, space, t);
    var tasks' := tasks[c := tasks[c].(pc := User)][t := Task(pid, space, Ready, User)];
    assert TaskOk(procs, c, tasks[c]);
    forall x | x in tasks'
      ensures TaskOk(procs', x, tasks'[x])
    {
      if x != t {
        assert TaskOk(procs, x, tasks[x]);
        assert x != c ==> tasks[x].process != tasks[c].process;
      }
    }
  }

  lemma ExecSetKeeps(k: Kernel, image: nat, k': Kernel)
    requires Base(k) && Me(k).pc.ExecSet? && Me(k).process in k.procs
    requires k' == DoExecSet(k, image)
    ensures Base(k')
  {
    var p := Me(k).process;
    assert TaskOk(k.procs, k.current, Me(k));
    RecordStep(k, k', p, k.procs[p].(space := Some(image)), Me(k).(pc := ExecBind(image, Me(k).space)));
  }

  lemma ReparentKeeps(k: Kernel, k': Kernel, status: int)
    requires Base(k) && Me(k).pc == Reparent(status) && SameQueues(k, k') && k'.current == k.current
    requires k'.procs == Reparented(k.procs, Me(k).process, INIT_PID) && k'.tasks == At(k, WakeWaiters(status)).tasks
    requires k'.nextPid == k.nextPid && k'.nextTask == k.nextTask
    ensures Base(k')
  {
    var p := Me(k).process;
    var task := Me(k).(pc := WakeWaiters(status));
    assert TaskOk(k.procs, k.current, Me(k));
    assert Family(k'.procs) && k'.procs[p].children == [] by {
      ReparentedFamily(k.procs, p);
    }
    assert TasksOk(k'.procs, k'.tasks) by {
      ReparentedTasks(k.procs, k.tasks, k.current, task, k'.procs);
    }
    RetireStays(k, k');
    Settle(k, k', task);
  }

  lemma ReparentedTasks(procs: Procs, tasks: Tasks, c: nat, task: Task, procs': Procs)
    requires TasksOk(procs, tasks) && c in tasks && tasks[c].pc.Reparent?
    requires task == tasks[c].(pc := WakeWaiters(tasks[c].pc.status))
    requires procs' == Reparented(procs, task.process, INIT_PID) && task.process in procs
    requires procs'[task.process].children == []
    requires forall t :: t in tasks && t != c ==> !Exiting(tasks[t].pc)
    ensures TasksOk(procs', tasks[c := task])
  {
    assert TaskOk(procs, c, tasks[c]);
    forall t | t in tasks && t != c
      ensures TaskOk(procs', t, tasks[t])
    {
      assert TaskOk(procs, t, tasks[t]);
      assert procs'[tasks[t].process] == Moved(procs, task.process, INIT_PID, tasks[t].process);
    }
    OneTask(procs, procs', tasks, c, task);
  }

  lemma SetStatusKeeps(k: Kernel, status: int, k': Kernel)
    requires Base(k) && Me(k).pc == SetStatus(status)
    requires k' == DoSetStatus(k, status)
    ensures Base(k')
  {
    var p := Me(k).process;
    assert TaskOk(k.procs, k.current, Me(k));
    RecordStep(k, k', p, k.procs[p].(status := Some(status)), Me(k).(pc := Leave));
  }

  /** The running task changes its own record and moves on. */
  lemma RecordStep(k: Kernel, k': Kernel, p: nat, r: Pcb, task: Task)
    requires Base(k) && p == Me(k).process && p in k.procs && k'.procs == k.procs[p := r]
    requires k'.tasks == k.tasks[k.current := task] && task.state == Me(k).state && task.process == p
    requires SameQueues(k, k')
    requires k'.current == k.current && k'.nextPid == k.nextPid && k'.nextTask == k.nextTask
    requires r.parent == k.procs[p].parent && r.children == k.procs[p].children && r.threads == k.procs[p].threads
    requires r.status != k.procs[p].status ==> p != INIT_PID && r.children == []
    requires TaskOk(k'.procs, k.current, task) && (k.current == REAPER ==> !task.pc.Retire?)
    ensures Base(k')
  {
    assert TaskOk(k.procs, k.current, Me(k));
    assert Family(k'.procs) by {
      RecordFamily(k.procs, p, r);
    }
    assert TasksOk(k'.procs, k'.tasks) by {
      forall t | t in k.tasks && t != k.current
        ensures TaskOk(k'.procs, t, k.tasks[t])
      {
        assert TaskOk(k.procs, t, k.tasks[t]);
      }
      OneTask(k.procs, k'.procs, k.tasks, k.current, task);
    }
    Settle(k, k', task);
  }

  lemma WakeReaperKeeps(k: Kernel, status: int, k': Kernel)
    requires Base(k) && Me(k).pc == WakeReaper(status)
    requires k' == DoWakeReaper(k, status)
    ensures Base(k')
  {
    assert TaskOk(k.procs, k.current, Me(k)) && TaskOk(k.procs, REAPER, k.tasks[REAPER]);
    var awake := k.(tasks := k.tasks[REAPER := k.tasks[REAPER].(state := Ready)], reaperWaits := false);
    ReaperAwake(k, awake);
    assert k'.tasks == awake.tasks[k.current := Me(k).(pc := SetStatus(status))];
    assert TasksOk(k'.procs, k'.tasks) by {
      OneTask(k.procs, k.procs, awake.tasks, k.current, Me(k).(pc := SetStatus(status)));
    }
    Settle(awake, k', Me(k).(pc := SetStatus(status)));
  }

  lemma ReaperAwake(k: Kernel, k': Kernel)
    requires Base(k) && k.current != REAPER
    requires k' == k.(tasks := k.tasks[REAPER := k.tasks[REAPER].(state := Ready)], reaperWaits := false)
    ensures Base(k')
  {
    assert TaskOk(k.procs, REAPER, k.tasks[REAPER]);
    assert TasksOk(k'.procs, k'.tasks) by {
      OneTask(k.procs, k.procs, k.tasks, REAPER, k.tasks[REAPER].(state := Ready));
    }
  }

  /** `wake_all` reaches every waiter. */
  lemma WakeAllKeeps(k: Kernel, pc: Pc, k': Kernel)
    requires Base(k)
    requires (Me(k).pc.WakeWaiters? && pc == WakeReaper(Me(k).pc.status)) || (Me(k).pc == ReaperWake && pc == Reap)
    requires k' == DoWakeAll(k, pc)
    ensures Base(k') && k'.childWait == []
    ensures k'.tasks == Woken(k.tasks, k.childWait)[k.current := Me(k).(pc := pc)]
  {
    var tasks := Woken(k.tasks, k.childWait)[k.current := Me(k).(pc := pc)];
    assert k' == k.(tasks := tasks, childWait := []) by {
      WakeAllWakes(k.tasks, k.childWait);
    }
    assert TasksOk(k'.procs, k'.tasks) by {
      WokenOk(k, pc);
    }
    WokenQueues(k, pc, k');
  }

  lemma WokenQueues(k: Kernel, pc: Pc, k': Kernel)
    requires QueuesOk(k) && RunningOk(k) && RetireOk(k) && REAPER in k.tasks && !pc.Retire?
    requires k' == k.(tasks := Woken(k.tasks, k.childWait)[k.current := Me(k).(pc := pc)], childWait := [])
    ensures QueuesOk(k') && RunningOk(k') && RetireOk(k')
  {
    assert k.current !in k.childWait;
    assert forall t :: t in k'.tasks ==> (k'.tasks[t].state == Blocked ==> t == REAPER);
  }

  lemma WokenOk(k: Kernel, pc: Pc)
    requires Base(k)
    requires (Me(k).pc.WakeWaiters? && pc == WakeReaper(Me(k).pc.status)) || (Me(k).pc == ReaperWake && pc == Reap)
    ensures TasksOk(k.procs, Woken(k.tasks, k.childWait)[k.current := Me(k).(pc := pc)])
  {
    var tasks' := Woken(k.tasks, k.childWait)[k.current := Me(k).(pc := pc)];
    assert TaskOk(k.procs, k.current, Me(k));
    forall t | t in tasks'
      ensures TaskOk(k.procs, t, tasks'[t])
    {
      assert TaskOk(k.procs, t, k.tasks[t]);
    }
  }

  lemma ReapTaskKeeps(k: Kernel, k': Kernel)
    requires Base(k) && Me(k).pc == Reap && k.exitQueue != []
    requires k' == DoReapTask(k)
    ensures Base(k') && k'.tasks[REAPER].pc.Retire?
  {
    var t := k.exitQueue[0];
    assert TaskOk(k.procs, k.current, Me(k)) && t in k.exitQueue;
    assert TaskOk(k.procs, t, k.tasks[t]) && TaskOk(k.procs, IDLE, k.tasks[IDLE]);
    assert k.tasks[t].pc == Leave && t != k.current;
    var me := Me(k).(pc := Retire(t, k.tasks[t].process));
    assert k' == k.(tasks := k.tasks[k.current := me] - {t}, exitQueue := k.exitQueue[1..]);
    assert TasksOk(k'.procs, k'.tasks) by {
      OneTask(k.procs, k.procs, k.tasks, k.current, me);
      OneLess(k.procs, k.tasks[k.current := me], t);
    }
    assert QueuesOk(k') by {
      DequeueKeeps(k.exitQueue, t);
    }
  }

  lemma OneLess(procs: Procs, tasks: Tasks, t: nat)
    requires TasksOk(procs, tasks) && t != IDLE && t != REAPER
    ensures TasksOk(procs, tasks - {t})
  {
    forall x | x in tasks - {t}
      ensures TaskOk(procs, x, (tasks - {t})[x])
    {
      assert TaskOk(procs, x, tasks[x]);
    }
  }

  lemma DequeueKeeps(queue: seq<nat>, t: nat)
    requires Distinct(queue) && queue != [] && queue[0] == t
    ensures Distinct(queue[1..]) && forall x :: x in queue[1..] <==> x in queue && x != t
  {
    assert queue == [t] + queue[1..];
  }

  // ---- reaping -----------------------------------------------------------------------------------------------

  /** Reaping a parentless record with no thread: no task is affected. */
  lemma ReapKeeps(k: Kernel, p: nat, k': Kernel)
    requires Base(k) && k' == DoReap(k, p)
    ensures Base(k')
  {
    if CanReap(k.procs, p) {
      ReapedFamily(k.procs, p);
      forall t | t in k'.tasks
        ensures TaskOk(k'.procs, t, k'.tasks[t])
      {
        assert TaskOk(k.procs, t, k.tasks[t]);
      }
    }
  }

  lemma DisownKeeps(k: Kernel, c: nat, k': Kernel)
    requires Base(k) && CanCollect(k.procs, Me(k).process, c)
    requires k' == k.(procs := Disowned(k.procs, Me(k).process, c))
    ensures Base(k')
  {
    var p := Me(k).process;
    DisownedFamily(k.procs, p, c);
    forall t | t in k'.tasks
      ensures TaskOk(k'.procs, t, k'.tasks[t])
    {
      assert TaskOk(k.procs, t, k.tasks[t]);
    }
  }

  lemma CollectKeeps(k: Kernel, c: nat, k': Kernel)
    requires Base(k) && Me(k).pc == Collect(c) && CanCollect(k.procs, Me(k).process, c)
    requires k' == DoCollect(k, c)
    ensures Base(k')
  {
    assert TaskOk(k.procs, k.current, Me(k));
    var d := k.(procs := Disowned(k.procs, Me(k).process, c));
    DisownKeeps(k, c, d);
    var r := DoReap(d, c);
    ReapKeeps(d, c, r);
    MovesTo(r, k', CollectReap(c, k.procs[c].status.value));
  }

  /** The running task's next place is one a task that is neither asleep nor exiting may be at. */
  lemma MovesTo(k: Kernel, k': Kernel, pc: Pc)
    requires Base(k) && k' == At(k, pc) && Me(k).state == Ready && k.current != IDLE
    requires !ExitPc(pc) && !pc.Retire? && if k.current == REAPER then ReaperPc(pc) else !ReaperOnly(pc)
    ensures Base(k')
  {
    assert TaskOk(k.procs, k.current, Me(k));
    MovesOn(k, k', Me(k).(pc := pc));
  }

  /** The reaper drops the thread; the process has a status and no thread now. */
  lemma DropKeeps(k: Kernel, t: nat, p: nat, k': Kernel)
    requires Base(k) && k.current == REAPER && Me(k).pc == Retire(t, p)
    requires k' == At(k.(procs := ThreadDropped(k.procs, p, t)), TakeSpaces)
    ensures ThreadDropped(k.procs, p, t) == k.procs[p := k.procs[p].(threads := [])]
    ensures Base(k')
  {
    var task := Me(k).(pc := TakeSpaces);
    assert TaskOk(k.procs, REAPER, Me(k));
    assert Family(k'.procs) by {
      RecordFamily(k.procs, p, k'.procs[p]);
    }
    assert TasksOk(k'.procs, k'.tasks) by {
      forall x | x in k.tasks
        ensures TaskOk(k'.procs, x, k'.tasks[x])
      {
        assert TaskOk(k.procs, x, k.tasks[x]);
      }
    }
    Settle(k, k', task);
  }

  lemma RetireKeeps(k: Kernel, t: nat, p: nat, k': Kernel)
    requires Base(k) && k.current == REAPER && Me(k).pc == Retire(t, p)
    requires k' == DoRetire(k, t, p)
    ensures Base(k')
  {
    var d := At(k.(procs := ThreadDropped(k.procs, p, t)), TakeSpaces);
    DropKeeps(k, t, p, d);
    ReapKeeps(d, p, k');
  }

  lemma ReapOneKeeps(k: Kernel, k': Kernel)
    requires Base(k) && Me(k).pc == Reap && k' == DoReapTask(k)
    ensures Base(k')
  {
    assert TaskOk(k.procs, k.current, Me(k));
    if k.exitQueue == [] {
      MovesTo(k, k', ReaperWait);
    } else {
      ReapTaskKeeps(k, k');
    }
  }

  // ---- every step ------------------------------------------------------------------------------------------------

  lemma ChosenKeeps(k: Kernel, choice: Choice, k': Kernel)
    requires Base(k) && Fixed(k) && Me(k).pc == User && k.current != IDLE
    requires choice.StartExit? ==> Me(k).process != INIT_PID
    requires k' == Chosen(k, choice)
    ensures Base(k')
  {
    assert TaskOk(k.procs, k.current, Me(k));
    if choice.SpawnKernelTask? {
      SpawnKeeps(k, k', None, None, Me(k));
    } else if choice.StartExit? {
      ExitKeeps(k, choice.status, k');
    } else {
      ChosenMoves(k, choice, k');
    }
  }

  lemma ChosenMoves(k: Kernel, choice: Choice, k': Kernel)
    requires Base(k) && Fixed(k) && Me(k).pc == User && k.current != IDLE && k.current != REAPER
    requires (choice.StartSpawn? || choice.StartWait? || choice.StartExec?) && k' == Chosen(k, choice)
    requires Me(k).state == Ready
    ensures Base(k')
  {
    match choice
    case StartSpawn => MovesOn(k, k', Me(k).(pc := Spawn(k.nextSpace)));
    case StartWait(target, noHang) => MovesOn(k, k', Me(k).(pc := WaitCheck(target, noHang)));
    case StartExec => MovesOn(k, k', Me(k).(pc := ExecSet(k.nextSpace)));
  }

  lemma WaitLoopKeeps(k: Kernel, target: Option<nat>, to: nat, k': Kernel)
    requires Base(k) && Me(k).pc == WaitLoop(target) && to in k.tasks && k.tasks[to].state == Ready && to != k.current
    requires k' == DoWaitLoop(k, target, to)
    ensures Base(k')
  {
    assert TaskOk(k.procs, k.current, Me(k));
    if Look(k.procs, Me(k).process, target) != NotYet {
      MovesTo(k, k', WaitAgain(target));
    } else {
      BlockKeeps(k, to, k');
    }
  }

  lemma ReaperWaitKeeps(k: Kernel, to: nat, k': Kernel)
    requires Base(k) && Me(k).pc == ReaperWait && to in k.tasks && k.tasks[to].state == Ready && to != k.current
    requires k' == DoReaperWait(k, to)
    ensures Base(k')
  {
    assert TaskOk(k.procs, k.current, Me(k));
    if k.exitQueue != [] {
      MovesTo(k, k', Reap);
    } else {
      ReaperBlockKeeps(k, to, k');
    }
  }

  lemma CollectReapKeeps(k: Kernel, c: nat, k': Kernel)
    requires Base(k) && Me(k).pc.CollectReap? && Me(k).pc.child == c && k' == At(DoReap(k, c), TakeSpaces)
    ensures Base(k')
  {
    assert TaskOk(k.procs, k.current, Me(k));
    var r := DoReap(k, c);
    ReapKeeps(k, c, r);
    MovesTo(r, k', TakeSpaces);
  }

  lemma CollectStepKeeps(k: Kernel, c: nat, k': Kernel)
    requires Base(k) && Me(k).pc == Collect(c) && k' == DoCollect(k, c)
    ensures Base(k')
  {
    assert TaskOk(k.procs, k.current, Me(k));
    if CanCollect(k.procs, Me(k).process, c) {
      CollectKeeps(k, c, k');
    } else {
      MovesTo(k, k', User);
    }
  }

  /** The space ledger may change on the way. */
  lemma MovesWithLedger(k: Kernel, pc: Pc, k': Kernel)
    requires Base(k) && k' == At(k.(active := k'.active, released := k'.released, owner := k'.owner,
        freed := k'.freed, nextSpace := k'.nextSpace), pc)
    requires Me(k).state == Ready && k.current != IDLE
    requires !ExitPc(pc) && !pc.Retire? && if k.current == REAPER then ReaperPc(pc) else !ReaperOnly(pc)
    ensures Base(k')
  {
    assert TaskOk(k.procs, k.current, Me(k));
    MovesOn(k, k', Me(k).(pc := pc));
  }

  lemma ExecBindKeeps(k: Kernel, image: nat, previous: Option<nat>, k': Kernel)
    requires Base(k) && Me(k).pc.ExecBind? && k' == DoExecBind(k, image, previous)
    ensures Base(k')
  {
    assert TaskOk(k.procs, k.current, Me(k));
    MovesOn(k, k', Me(k).(space := Some(image), pc := ExecActivate(image, previous)));
  }

  lemma ExecActivateKeeps(k: Kernel, image: nat, previous: Option<nat>, k': Kernel)
    requires Base(k) && Me(k).pc.ExecActivate? && k' == At(k.(active := Some(image)), ExecFree(previous))
    ensures Base(k')
  {
    assert TaskOk(k.procs, k.current, Me(k));
    MovesWithLedger(k, ExecFree(previous), k');
  }

  lemma ExecFreeKeeps(k: Kernel, previous: Option<nat>, k': Kernel)
    requires Base(k) && Me(k).pc.ExecFree? && k' == DoExecFree(k, previous)
    ensures Base(k')
  {
    assert TaskOk(k.procs, k.current, Me(k));
    MovesWithLedger(k, User, k');
  }

  lemma ExecStepKeeps(k: Kernel, k': Kernel)
    requires Base(k) && Fixed(k) && ExecPc(Me(k).pc) && k' == ExecActed(k)
    ensures Base(k')
  {
    assert TaskOk(k.procs, k.current, Me(k));
    match Me(k).pc
    case ExecSet(image) => ExecSetKeeps(k, image, k');
    case ExecBind(image, previous) => ExecBindKeeps(k, image, previous, k');
    case ExecActivate(image, previous) => ExecActivateKeeps(k, image, previous, k');
    case ExecFree(previous) => ExecFreeKeeps(k, previous, k');
  }

  lemma WaitStepKeeps(k: Kernel, to: nat, k': Kernel)
    requires Base(k) && Fixed(k) && to in k.tasks && k.tasks[to].state == Ready && WaitPc(Me(k).pc)
    requires k' == WaitActed(k, to)
    requires Me(k).pc.WaitLoop? || Me(k).pc == ReaperWait ==> to != k.current
    ensures Base(k')
  {
    assert TaskOk(k.procs, k.current, Me(k));
    match Me(k).pc
    case WaitCheck(target, noHang) => MovesTo(k, k', AfterLook(Look(k.procs, Me(k).process, target), target, noHang));
    case WaitLoop(target) => WaitLoopKeeps(k, target, to, k');
    case WaitAgain(target) => MovesTo(k, k', AfterLook(Look(k.procs, Me(k).process, target), target, true));
    case ReaperWait => ReaperWaitKeeps(k, to, k');
  }

  lemma ExitStepKeeps(k: Kernel, to: nat, k': Kernel)
    requires Base(k) && Fixed(k) && to in k.tasks && k.tasks[to].state == Ready && ExitPc(Me(k).pc)
    requires k' == ExitActed(k, to)
    ensures Base(k')
  {
    match Me(k).pc
    case Reparent(status) => ReparentKeeps(k, k', status);
    case WakeWaiters(status) => WakeAllKeeps(k, WakeReaper(status), k');
    case WakeReaper(status) => WakeReaperKeeps(k, status, k');
    case SetStatus(status) => SetStatusKeeps(k, status, k');
    case Leave => SwitchKeeps(k, to, k');
  }

  lemma FreeStepKeeps(k: Kernel, k': Kernel)
    requires Base(k) && Fixed(k) && FreePc(Me(k).pc) && k' == FreeActed(k)
    ensures Base(k')
  {
    if Me(k).pc.Collect? {
      CollectStepKeeps(k, Me(k).pc.child, k');
    } else if Me(k).pc.CollectReap? {
      CollectReapKeeps(k, Me(k).pc.child, k');
    } else {
      assert TaskOk(k.procs, k.current, Me(k));
      MovesWithLedger(k, Me(k').pc, k');
    }
  }

  lemma ReapStepKeeps(k: Kernel, k': Kernel)
    requires Base(k) && Fixed(k) && ReapPc(Me(k).pc) && k' == ReapActed(k)
    ensures Base(k')
  {
    assert TaskOk(k.procs, k.current, Me(k));
    match Me(k).pc
    case Reap => ReapOneKeeps(k, k');
    case Retire(t, p) => RetireKeeps(k, t, p, k');
    case ReaperWake => WakeAllKeeps(k, Reap, k');
  }

  lemma ActKeeps(k: Kernel, choice: Choice, to: nat, k': Kernel)
    requires Base(k) && Enabled(k, Act(choice, to)) && k' == Acted(k, choice, to)
    ensures Base(k')
  {
    assert TaskOk(k.procs, k.current, Me(k));
    var pc := Me(k).pc;
    if pc == User {
      ChosenKeeps(k, choice, k');
    } else if pc.Spawn? {
      SpawnKeeps(k, k', Some(Me(k).process), Some(pc.image), Me(k).(pc := User));
    } else if WaitPc(pc) {
      WaitStepKeeps(k, to, k');
    } else if ExecPc(pc) {
      ExecStepKeeps(k, k');
    } else if FreePc(pc) {
      FreeStepKeeps(k, k');
    } else if ReapPc(pc) {
      ReapStepKeeps(k, k');
    } else {
      ExitStepKeeps(k, to, k');
    }
  }

  lemma BaseStep(k: Kernel, e: Event, k': Kernel)
    requires Base(k) && Enabled(k, e) && k' == Next(k, e)
    ensures Base(k')
  {
    assert TaskOk(k.procs, k.current, Me(k));
    if e.Switch? {
      SwitchKeeps(k, e.to, k');
    } else {
      ActKeeps(k, e.choice, e.to, k');
    }
  }

  lemma BootBase(first: nat)
    requires first == IDLE || first == REAPER || first == 2
    ensures Base(Boot(first))
  {
    var k := Boot(first);
    assert TasksOk(k.procs, k.tasks) && Family(k.procs) by {
      BootTasks(first);
    }
    assert QueuesOk(k) && RunningOk(k) && RetireOk(k) && IdsOk(k);
  }

  lemma BootTasks(first: nat)
    ensures TasksOk(Boot(first).procs, Boot(first).tasks) && Family(Boot(first).procs)
  {
    var (procs, tasks) := (Boot(first).procs, Boot(first).tasks);
    assert TaskOk(procs, IDLE, tasks[IDLE]) && TaskOk(procs, REAPER, tasks[REAPER]) && TaskOk(procs, 2, tasks[2]);
    assert PcbOk(procs, INIT_PID) && PcbOk(procs, 2) && PcbOk(procs, 3);
  }
}
