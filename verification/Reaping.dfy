/** What becomes of exited threads: over every run, a thread listed in a process's record is a task of
    that process or the one the reaper has in hand. So an exited process is ready for `wait4` as soon
    as the reaper is done with its thread, and the reaper takes exited threads in order.
  */
module Reaping {
  import opened Outcomes
  import opened Processes
  import opened ExitProtocol
  import opened ExitProtocolTasks
  import opened WakeDelivery
  import opened WaitResults

  /** A thread of a record is a task of that process, or the one the reaper is about to drop. */
  ghost predicate ThreadOk(k: Kernel, p: nat, t: nat) {
    || (t in k.tasks && k.tasks[t].process == p)
    || (REAPER in k.tasks && k.tasks[REAPER].pc == Retire(t, p))
  }

  ghost predicate ThreadsOk(k: Kernel) {
    forall p, t {:trigger ThreadOk(k, p, t)} :: p in k.procs && t in k.procs[p].threads ==> ThreadOk(k, p, t)
  }

  /** No record gains a thread. */
  ghost predicate ThreadsStay(procs: Procs, procs': Procs) {
    forall p {:trigger procs'[p]} :: p in procs' ==> p in procs && procs'[p].threads == procs[p].threads
  }

  /** Tasks stay tasks of their processes, and the reaper holds what it held. */
  lemma ThreadsFrame(k: Kernel, k': Kernel)
    requires ThreadsOk(k) && ThreadsStay(k.procs, k'.procs) && k.tasks.Keys <= k'.tasks.Keys
    requires forall t :: t in k.tasks ==> k'.tasks[t].process == k.tasks[t].process
    requires REAPER in k.tasks ==> !k.tasks[REAPER].pc.Retire? || k'.tasks[REAPER].pc == k.tasks[REAPER].pc
    ensures ThreadsOk(k')
  {
    forall p, t | p in k'.procs && t in k'.procs[p].threads
      ensures ThreadOk(k', p, t)
    {
      assert k'.procs[p].threads == k.procs[p].threads;
      assert ThreadOk(k, p, t);
    }
  }

  // ---- steps that leave the threads alone ---------------------------------------------------------------

  lemma ReapedThreads(procs: Procs, q: nat)
    ensures ThreadsStay(procs, Reaped(procs, q))
  {
  }

  lemma DisownedThreads(procs: Procs, p: nat, c: nat)
    requires p in procs && c in procs
    ensures ThreadsStay(procs, Disowned(procs, p, c))
  {
  }

  lemma FreeThreads(k: Kernel, k': Kernel)
    requires Fixed(k) && FreePc(Me(k).pc) && k' == FreeActed(k)
    ensures ThreadsStay(k.procs, k'.procs)
  {
    if Me(k).pc.Collect? {
      var c := Me(k).pc.child;
      if CanCollect(k.procs, Me(k).process, c) {
        var mid := Disowned(k.procs, Me(k).process, c);
        DisownedThreads(k.procs, Me(k).process, c);
        ReapedThreads(mid, c);
        assert k'.procs == Reaped(mid, c);
      }
    } else if Me(k).pc.CollectReap? {
      ReapedThreads(k.procs, Me(k).pc.child);
    }
  }

  lemma ExecThreads(k: Kernel, k': Kernel)
    requires Fixed(k) && ExecPc(Me(k).pc) && k' == ExecActed(k)
    ensures ThreadsStay(k.procs, k'.procs)
  {
  }

  lemma ReparentThreads(procs: Procs, q: nat)
    requires q in procs
    ensures ThreadsStay(procs, Reparented(procs, q, INIT_PID))
  {
    var procs' := Reparented(procs, q, INIT_PID);
    if q != INIT_PID {
      forall p | p in procs'
        ensures procs'[p].threads == procs[p].threads
      {
        assert procs'[p] == Moved(procs, q, INIT_PID, p);
      }
    }
  }

  lemma ExitThreads(k: Kernel, to: nat, k': Kernel)
    requires Fixed(k) && to in k.tasks && ExitPc(Me(k).pc) && k' == ExitActed(k, to)
    ensures ThreadsStay(k.procs, k'.procs)
  {
    if Me(k).pc.Reparent? {
      ReparentThreads(k.procs, Me(k).process);
    }
  }

  /** The steps that neither make nor retire a thread. */
  predicate Plain(k: Kernel, e: Event)
    requires k.current in k.tasks
  {
    e.Switch? || !(|| (Me(k).pc == User && e.choice.SpawnKernelTask?) || Me(k).pc.Spawn?
                   || Me(k).pc == Reap || Me(k).pc.Retire?)
  }

  lemma PlainThreads(k: Kernel, e: Event, k': Kernel)
    requires Base(k) && Enabled(k, e) && Plain(k, e) && k' == Next(k, e)
    ensures ThreadsStay(k.procs, k'.procs)
  {
    if e.Act? {
      assert TaskOk(k.procs, k.current, Me(k));
      var pc := Me(k).pc;
      if pc == User || WaitPc(pc) || ReapPc(pc) {
        assert k'.procs == k.procs;
      } else if ExecPc(pc) {
        ExecThreads(k, k');
      } else if FreePc(pc) {
        FreeThreads(k, k');
      } else {
        ExitThreads(k, e.to, k');
      }
    }
  }

  /** A task keeps its process. */
  lemma SameProcess(k: Kernel, e: Event, k': Kernel, t: nat)
    requires Base(k) && Enabled(k, e) && k' == Next(k, e) && t in k.tasks && !(e.Act? && Me(k).pc == Reap)
    ensures t in k'.tasks && k'.tasks[t].process == k.tasks[t].process
  {
    if e.Switch? || t != k.current {
      if e.Act? && ReapPc(Me(k).pc) {
        ReapKeepsTask(k, k', t);
      } else {
        Bystander(k, e, k', t);
      }
    } else {
      RunnerStays(k, e.choice, e.to, k');
    }
  }

  lemma ReapKeepsTask(k: Kernel, k': Kernel, t: nat)
    requires Base(k) && Fixed(k) && ReapPc(Me(k).pc) && Me(k).pc != Reap && k' == ReapActed(k)
    requires t in k.tasks && t != k.current
    ensures t in k'.tasks && k'.tasks[t].process == k.tasks[t].process
  {
    if Me(k).pc == ReaperWake {
      WakeUnmoved(k, Reap, t);
    }
  }

  lemma RunnerStays(k: Kernel, choice: Choice, to: nat, k': Kernel)
    requires Base(k) && Enabled(k, Act(choice, to)) && k' == Acted(k, choice, to) && Me(k).pc != Reap
    ensures k.current in k'.tasks && k'.tasks[k.current].process == Me(k).process
  {
    assert TaskOk(k.procs, k.current, Me(k));
    var pc := Me(k).pc;
    if pc == User {
      ChosenStays(k, choice);
    } else if WaitPc(pc) {
      WaitStays(k, to);
    } else if !pc.Spawn? {
      OthersStay(k, choice, to, k');
    }
  }

  lemma OthersStay(k: Kernel, choice: Choice, to: nat, k': Kernel)
    requires Base(k) && Fixed(k) && to in k.tasks && k' == Acted(k, choice, to)
    requires Me(k).pc != Reap && Me(k).pc != User && !Me(k).pc.Spawn? && !WaitPc(Me(k).pc)
    ensures k.current in k'.tasks && k'.tasks[k.current].process == Me(k).process
  {
    var pc := Me(k).pc;
    if ExecPc(pc) || FreePc(pc) {
      FreeStays(k);
    } else if ReapPc(pc) {
      ReapStays(k, k');
    } else {
      ExitStays(k, to, k');
    }
  }

  lemma ChosenStays(k: Kernel, choice: Choice)
    requires Base(k) && Fixed(k)
    ensures k.current in Chosen(k, choice).tasks && Chosen(k, choice).tasks[k.current].process == Me(k).process
  {
  }

  lemma FreeStays(k: Kernel)
    requires Fixed(k) && (ExecPc(Me(k).pc) || FreePc(Me(k).pc))
    ensures ExecPc(Me(k).pc) ==> ExecActed(k).tasks[k.current].process == Me(k).process
    ensures FreePc(Me(k).pc) ==> FreeActed(k).tasks[k.current].process == Me(k).process
  {
  }

  lemma ReapStays(k: Kernel, k': Kernel)
    requires Base(k) && Fixed(k) && ReapPc(Me(k).pc) && Me(k).pc != Reap && k' == ReapActed(k)
    ensures k.current in k'.tasks && k'.tasks[k.current].process == Me(k).process
  {
    if Me(k).pc == ReaperWake {
      WakeAllKeeps(k, Reap, k');
    }
  }

  lemma ExitStays(k: Kernel, to: nat, k': Kernel)
    requires Base(k) && Fixed(k) && to in k.tasks && ExitPc(Me(k).pc) && k' == ExitActed(k, to)
    ensures k.current in k'.tasks && k'.tasks[k.current].process == Me(k).process
  {
    if Me(k).pc.WakeWaiters? {
      WakeAllKeeps(k, WakeReaper(Me(k).pc.status), k');
    }
  }

  lemma WaitStays(k: Kernel, to: nat)
    requires Fixed(k) && to in k.tasks && WaitPc(Me(k).pc)
    ensures k.current in WaitActed(k, to).tasks && WaitActed(k, to).tasks[k.current].process == Me(k).process
  {
  }

  lemma PlainStep(k: Kernel, e: Event, k': Kernel)
    requires Base(k) && ThreadsOk(k) && Enabled(k, e) && Plain(k, e) && k' == Next(k, e)
    ensures ThreadsOk(k')
  {
    PlainThreads(k, e, k');
    forall t | t in k.tasks
      ensures t in k'.tasks && k'.tasks[t].process == k.tasks[t].process
    {
      SameProcess(k, e, k', t);
    }
    if k.tasks[REAPER].pc.Retire? {
      StaysPut(k, e, k', REAPER);
    }
    ThreadsFrame(k, k');
  }

  // ---- steps that make or retire one ----------------------------------------------------------------------

  lemma CreatedStep(k: Kernel, k': Kernel, parent: Option<nat>, space: Option<nat>, task: Task)
    requires Base(k) && ThreadsOk(k) && k'.procs == Created(k.procs, k.nextPid, parent, space, k.nextTask)
    requires k'.tasks == k.tasks[k.current := task][k.nextTask := Task(k.nextPid, space, Ready, User)]
    requires task.process == Me(k).process && k.current != REAPER
    ensures ThreadsOk(k')
  {
    forall p, t | p in k'.procs && t in k'.procs[p].threads
      ensures ThreadOk(k', p, t)
    {
      if p in k.procs {
        assert ThreadOk(k, p, t);
      }
    }
  }

  lemma RetiredStep(k: Kernel, k': Kernel)
    requires Base(k) && ThreadsOk(k) && Fixed(k) && Me(k).pc == Reap && k' == DoReapTask(k) && k.current == REAPER
    ensures ThreadsOk(k')
    ensures k.exitQueue != [] ==>
      && k'.exitQueue == k.exitQueue[1..]
      && k'.tasks[REAPER].pc == Retire(k.exitQueue[0], k.tasks[k.exitQueue[0]].process)
  {
    if k.exitQueue != [] {
      assert k.exitQueue[0] in k.exitQueue;
      assert TaskOk(k.procs, REAPER, k.tasks[REAPER]);
    }
    forall p, t | p in k'.procs && t in k'.procs[p].threads
      ensures ThreadOk(k', p, t)
    {
      assert ThreadOk(k, p, t);
    }
  }

  lemma DroppedStep(k: Kernel, t: nat, p: nat, k': Kernel)
    requires Base(k) && ThreadsOk(k) && k.current == REAPER && Me(k).pc == Retire(t, p) && k' == DoRetire(k, t, p)
    ensures ThreadsOk(k') && (p in k'.procs ==> k'.procs[p].threads == [] && k'.procs[p].status == k.procs[p].status)
  {
    var mid := At(k.(procs := ThreadDropped(k.procs, p, t)), TakeSpaces);
    DropKeeps(k, t, p, mid);
    ReapedThreads(mid.procs, p);
    forall q, u | q in k'.procs && u in k'.procs[q].threads
      ensures ThreadOk(k', q, u)
    {
      assert k'.procs[q].threads == mid.procs[q].threads;
      assert ThreadOk(k, q, u);
    }
  }

  lemma ThreadsStep(k: Kernel, e: Event, k': Kernel)
    requires Base(k) && ThreadsOk(k) && Enabled(k, e) && k' == Next(k, e)
    ensures ThreadsOk(k')
  {
    assert TaskOk(k.procs, k.current, Me(k));
    var pc := Me(k).pc;
    if Plain(k, e) {
      PlainStep(k, e, k');
    } else if pc == User {
      CreatedStep(k, k', None, None, Me(k));
    } else if pc.Spawn? {
      CreatedStep(k, k', Some(Me(k).process), Some(pc.image), Me(k).(pc := User));
    } else if pc == Reap {
      RetiredStep(k, k');
    } else {
      DroppedStep(k, pc.task, pc.process, k');
    }
  }

  // ---- every run ------------------------------------------------------------------------------------------

  lemma {:induction false} ThreadsRun(k: Kernel, events: seq<Event>, k': Kernel)
    requires Base(k) && ThreadsOk(k) && Reaches(k, events, k')
    ensures Base(k') && ThreadsOk(k')
    decreases |events|
  {
    if events != [] {
      var next := Next(k, events[0]);
      BaseStep(k, events[0], next);
      ThreadsStep(k, events[0], next);
      ThreadsRun(next, events[1..], k');
    }
  }

  lemma ThreadsFromBoot(first: nat, events: seq<Event>, k: Kernel)
    requires (first == IDLE || first == REAPER || first == 2) && Reaches(Boot(first), events, k)
    ensures Base(k) && ThreadsOk(k)
  {
    var boot := Boot(first);
    BootBase(first);
    BootThreads(first, boot);
    ThreadsRun(boot, events, k);
  }

  lemma BootThreads(first: nat, boot: Kernel)
    requires boot == Boot(first)
    ensures ThreadsOk(boot)
  {
  }

  /** In every run, a process none of whose threads is a task or in the reaper's hand has no thread. */
  lemma GoneOnceReaped(first: nat, events: seq<Event>, k: Kernel, p: nat)
    requires (first == IDLE || first == REAPER || first == 2) && Reaches(Boot(first), events, k) && p in k.procs
    requires forall t :: t in k.tasks ==> k.tasks[t].process != p
    requires REAPER in k.tasks ==> !(k.tasks[REAPER].pc.Retire? && k.tasks[REAPER].pc.process == p)
    ensures k.procs[p].threads == []
  {
    ThreadsFromBoot(first, events, k);
    var threads := k.procs[p].threads;
    assert threads == [] || ThreadOk(k, p, threads[0]);
  }

  /** The reaper takes the thread that exited first, ... */
  lemma ReaperTakes(first: nat, events: seq<Event>, k: Kernel, e: Event, k': Kernel, t: nat)
    requires (first == IDLE || first == REAPER || first == 2) && Reaches(Boot(first), events, k)
    requires Enabled(k, e) && e.Act? && k' == Next(k, e) && Me(k).pc == Reap && k.exitQueue != []
    requires t == k.exitQueue[0]
    ensures t in k.tasks && t !in k'.tasks && k'.exitQueue == k.exitQueue[1..]
    ensures REAPER in k'.tasks && k'.tasks[REAPER].pc == Retire(t, k.tasks[t].process)
  {
    ThreadsFromBoot(first, events, k);
    ReaperStep(k, e, k');
    RetiredStep(k, k');
    TakenTask(k, k', t);
  }

  lemma ReaperStep(k: Kernel, e: Event, k': Kernel)
    requires Base(k) && Enabled(k, e) && e.Act? && k' == Next(k, e)
    ensures Me(k).pc == Reap ==> k.current == REAPER && k' == DoReapTask(k)
    ensures Me(k).pc.Retire? ==> k.current == REAPER && k' == DoRetire(k, Me(k).pc.task, Me(k).pc.process)
  {
    assert TaskOk(k.procs, k.current, Me(k));
  }

  lemma TakenTask(k: Kernel, k': Kernel, t: nat)
    requires Base(k) && k.current == REAPER && k.exitQueue != [] && t == k.exitQueue[0] && k' == DoReapTask(k)
    requires Me(k).pc == Reap
    ensures t in k.tasks && t !in k'.tasks && REAPER in k'.tasks
  {
    assert t in k.exitQueue && TaskOk(k.procs, REAPER, k.tasks[REAPER]);
  }

  /** ... and then drops it from its record: if that stays for the parent, it can be collected. */
  lemma ReaperDrops(first: nat, events: seq<Event>, k: Kernel, e: Event, k': Kernel, t: nat, p: nat)
    requires (first == IDLE || first == REAPER || first == 2) && Reaches(Boot(first), events, k)
    requires Enabled(k, e) && e.Act? && k' == Next(k, e) && Me(k).pc == Retire(t, p)
    ensures p in k.procs && k.procs[p].status.Some? && k.procs[p].threads == [t]
    ensures p in k'.procs ==> k'.procs[p].threads == [] && k'.procs[p].status == k.procs[p].status
  {
    ThreadsFromBoot(first, events, k);
    ReaperStep(k, e, k');
    DroppedStep(k, t, p, k');
  }

  // ---- families --------------------------------------------------------------------------------------------

  /** A spawned process is its maker's youngest child, and its one thread runs in the image. */
  lemma SpawnedChild(k: Kernel, e: Event, k': Kernel, image: nat, p: nat, id: nat)
    requires Base(k) && Enabled(k, e) && e.Act? && k' == Next(k, e)
    requires Me(k).pc == Spawn(image) && p == Me(k).process && id == k.nextPid
    ensures id !in k.procs && id in k'.procs && k'.procs[id].parent == Some(p) && k'.procs[id].children == []
    ensures k'.procs[id].status.None? && k'.procs[id].space == Some(image) && k'.procs[id].threads == [k.nextTask]
    ensures p in k.procs && k'.procs[p].children == k.procs[p].children + [id]
    ensures k.nextTask !in k.tasks && k'.tasks[k.nextTask] == Task(id, Some(image), Ready, User)
  {
    assert TaskOk(k.procs, k.current, Me(k));
  }

  /** The children of an exiting process become the youngest of PID 1, in order. */
  lemma OrphansGoToInit(k: Kernel, e: Event, k': Kernel, p: nat)
    requires Base(k) && Enabled(k, e) && e.Act? && k' == Next(k, e) && Me(k).pc.Reparent? && p == Me(k).process
    ensures INIT_PID in k.procs && k'.procs[INIT_PID].children == k.procs[INIT_PID].children + k.procs[p].children
    ensures k'.procs[p].children == []
    ensures forall c :: c in k.procs && k.procs[c].parent == Some(p) ==>
              c in k'.procs && k'.procs[c].parent == Some(INIT_PID)
    ensures forall c :: c in k.procs && k.procs[c].parent != Some(p) ==>
              c in k'.procs && k'.procs[c].parent == k.procs[c].parent
  {
    assert TaskOk(k.procs, k.current, Me(k));
    assert k'.procs == Reparented(k.procs, p, INIT_PID);
    assert PcbOk(k.procs, p);
    forall c | c in k.procs
      ensures k'.procs[c] == Moved(k.procs, p, INIT_PID, c)
      ensures c in k.procs[p].children <==> k.procs[c].parent == Some(p)
    {
      assert PcbOk(k.procs, c);
    }
  }

  // ---- records ---------------------------------------------------------------------------------------------

  /** Nobody holds the record, and if the process is gone its parent has yet to collect it. */
  predicate RecordOk(r: Pcb) {
    r.references == 0 && r.waiters == [] && (r.status.Some? && r.threads == [] ==> r.parent.Some?)
  }

  ghost predicate RecordsOk(procs: Procs) {
    forall p {:trigger procs[p]} :: p in procs ==> RecordOk(procs[p])
  }

  /** ... but for one. */
  ghost predicate OthersOk(procs: Procs, q: nat) {
    forall p {:trigger procs[p]} :: p in procs ==>
      procs[p].references == 0 && procs[p].waiters == [] && (p != q ==> RecordOk(procs[p]))
  }

  lemma ReapedRecords(procs: Procs, q: nat)
    requires OthersOk(procs, q)
    ensures RecordsOk(Reaped(procs, q))
  {
  }

  lemma DisownedRecords(procs: Procs, p: nat, c: nat)
    requires RecordsOk(procs) && p in procs && c in procs
    ensures OthersOk(Disowned(procs, p, c), c)
  {
  }

  lemma DroppedRecords(procs: Procs, p: nat, t: nat)
    requires RecordsOk(procs)
    ensures OthersOk(ThreadDropped(procs, p, t), p)
  {
  }

  lemma ReparentedRecords(procs: Procs, q: nat)
    requires RecordsOk(procs) && q in procs
    ensures RecordsOk(Reparented(procs, q, INIT_PID))
  {
    var procs' := Reparented(procs, q, INIT_PID);
    if q != INIT_PID {
      forall p | p in procs'
        ensures RecordOk(procs'[p])
      {
        assert procs'[p] == Moved(procs, q, INIT_PID, p);
        assert RecordOk(procs[p]);
      }
    }
  }

  lemma CreatedRecords(procs: Procs, id: nat, parent: Option<nat>, space: Option<nat>, thread: nat)
    requires RecordsOk(procs)
    ensures RecordsOk(Created(procs, id, parent, space, thread))
  {
  }

  lemma FreeRecords(k: Kernel, k': Kernel)
    requires RecordsOk(k.procs) && Fixed(k) && FreePc(Me(k).pc) && k' == FreeActed(k)
    ensures RecordsOk(k'.procs)
  {
    if Me(k).pc.Collect? {
      var c := Me(k).pc.child;
      if CanCollect(k.procs, Me(k).process, c) {
        DisownedRecords(k.procs, Me(k).process, c);
        ReapedRecords(Disowned(k.procs, Me(k).process, c), c);
      }
    } else if Me(k).pc.CollectReap? {
      ReapedRecords(k.procs, Me(k).pc.child);
    }
  }

  lemma ExecRecords(k: Kernel, k': Kernel)
    requires RecordsOk(k.procs) && Fixed(k) && ExecPc(Me(k).pc) && k' == ExecActed(k)
    ensures RecordsOk(k'.procs)
  {
  }

  lemma ReapRecords(k: Kernel, k': Kernel)
    requires RecordsOk(k.procs) && Fixed(k) && ReapPc(Me(k).pc) && k' == ReapActed(k)
    ensures RecordsOk(k'.procs)
  {
    if Me(k).pc.Retire? {
      var (t, p) := (Me(k).pc.task, Me(k).pc.process);
      DroppedRecords(k.procs, p, t);
      ReapedRecords(ThreadDropped(k.procs, p, t), p);
    }
  }

  lemma ExitRecords(k: Kernel, to: nat, k': Kernel)
    requires Base(k) && RecordsOk(k.procs) && Fixed(k) && to in k.tasks && ExitPc(Me(k).pc) && k' == ExitActed(k, to)
    ensures RecordsOk(k'.procs)
  {
    assert TaskOk(k.procs, k.current, Me(k));
    if Me(k).pc.Reparent? {
      ReparentedRecords(k.procs, Me(k).process);
    }
  }

  lemma RecordsStep(k: Kernel, e: Event, k': Kernel)
    requires Base(k) && RecordsOk(k.procs) && Enabled(k, e) && k' == Next(k, e)
    ensures RecordsOk(k'.procs)
  {
    if e.Act? {
      var pc := Me(k).pc;
      if pc == User {
        if e.choice.SpawnKernelTask? {
          CreatedRecords(k.procs, k.nextPid, None, None, k.nextTask);
        }
      } else if pc.Spawn? {
        CreatedRecords(k.procs, k.nextPid, Some(Me(k).process), Some(pc.image), k.nextTask);
      } else {
        OtherRecords(k, e.choice, e.to, k');
      }
    }
  }

  lemma OtherRecords(k: Kernel, choice: Choice, to: nat, k': Kernel)
    requires Base(k) && RecordsOk(k.procs) && Fixed(k) && to in k.tasks && k' == Acted(k, choice, to)
    requires Me(k).pc != User && !Me(k).pc.Spawn?
    ensures RecordsOk(k'.procs)
  {
    var pc := Me(k).pc;
    if WaitPc(pc) {
      assert k'.procs == k.procs;
    } else if ExecPc(pc) {
      ExecRecords(k, k');
    } else if FreePc(pc) {
      FreeRecords(k, k');
    } else if ReapPc(pc) {
      ReapRecords(k, k');
    } else {
      ExitRecords(k, to, k');
    }
  }

  lemma {:induction false} RecordsRun(k: Kernel, events: seq<Event>, k': Kernel)
    requires Base(k) && RecordsOk(k.procs) && Reaches(k, events, k')
    ensures RecordsOk(k'.procs)
    decreases |events|
  {
    if events != [] {
      var next := Next(k, events[0]);
      BaseStep(k, events[0], next);
      RecordsStep(k, events[0], next);
      RecordsRun(next, events[1..], k');
    }
  }

  /** In every run, a process that is gone is there only for a living parent to collect. */
  lemma NoLeftovers(first: nat, events: seq<Event>, k: Kernel, p: nat)
    requires (first == IDLE || first == REAPER || first == 2) && Reaches(Boot(first), events, k)
    requires p in k.procs && k.procs[p].status.Some? && k.procs[p].threads == []
    ensures k.procs[p].parent.Some? && k.procs[p].parent.value in k.procs
    ensures k.procs[k.procs[p].parent.value].status.None?
  {
    ThreadsFromBoot(first, events, k);
    var boot := Boot(first);
    BootBase(first);
    assert RecordsOk(boot.procs);
    RecordsRun(boot, events, k);
    assert RecordOk(k.procs[p]) && PcbOk(k.procs, p);
  }
}
