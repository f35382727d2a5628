/** The pending wake-up arrives: in any run a task asleep in `wait4` that could collect is woken once
    the exiting task it waits on, or the reaper, has taken the steps it still owes. Other tasks may
    run in between as they like; they cannot make it wait longer once the reaper has moved.
  */
module WakeDelivery {
  import opened Outcomes
  import opened Processes
  import opened ExitProtocol
  import opened ExitProtocolTasks
  import opened LostWakeups

  /** The reaper has retired a thread and not yet told the waiters. */
  predicate ReaperOwes(k: Kernel) {
    REAPER in k.tasks &&
    (k.tasks[REAPER].pc == TakeSpaces || k.tasks[REAPER].pc.FreeSpaces? || k.tasks[REAPER].pc == ReaperWake)
  }

  predicate ReaperActs(k: Kernel, e: Event) {
    k.current == REAPER && e.Act?
  }

  /** How often the reaper acts in the run. */
  ghost function ReaperSteps(k: Kernel, events: seq<Event>): nat
    decreases |events|
  {
    if events == [] || !Enabled(k, events[0]) then 0
    else (if ReaperActs(k, events[0]) then 1 else 0) + ReaperSteps(Next(k, events[0]), events[1..])
  }

  /** The reaper's own steps up to and with its `wake_all`. The spaces it is to free are counted
      when it takes them: until then other tasks may add to them. */
  ghost function Debt(k: Kernel, events: seq<Event>): nat
    requires REAPER in k.tasks
    decreases |events|
  {
    match k.tasks[REAPER].pc
    case TakeSpaces =>
      if events == [] || !Enabled(k, events[0]) || ReaperActs(k, events[0]) then |k.released| + 3
      else if REAPER in Next(k, events[0]).tasks then Debt(Next(k, events[0]), events[1..])
      else 1
    case FreeSpaces(spaces) => |spaces| + 2
    case _ => 1
  }

  /** Somewhere in the run the task can run. */
  ghost predicate WokenDuring(k: Kernel, events: seq<Event>, t: nat)
    decreases |events|
  {
    || (t in k.tasks && k.tasks[t].state == Ready)
    || (events != [] && Enabled(k, events[0]) && WokenDuring(Next(k, events[0]), events[1..], t))
  }

  /** `wake_all` wakes every sleeper. */
  lemma WakeDelivers(k: Kernel, pc: Pc, k': Kernel)
    requires Base(k) && k' == DoWakeAll(k, pc)
    requires (Me(k).pc.WakeWaiters? && pc == WakeReaper(Me(k).pc.status)) || (Me(k).pc == ReaperWake && pc == Reap)
    ensures k'.childWait == [] && forall t :: t in k.childWait ==> t in k'.tasks && k'.tasks[t].state == Ready
  {
    WakeAllKeeps(k, pc, k');
  }

  // ---- the tasks that do not run --------------------------------------------------------------------------

  /** The task is as it was, but for being woken. */
  predicate Unmoved(k: Kernel, k': Kernel, t: nat)
    requires t in k.tasks
  {
    t in k'.tasks && (k'.tasks[t] == k.tasks[t] || k'.tasks[t] == k.tasks[t].(state := Ready))
  }

  lemma WakeUnmoved(k: Kernel, pc: Pc, t: nat)
    requires Base(k) && t in k.tasks && t != k.current
    ensures Unmoved(k, DoWakeAll(k, pc), t)
  {
    WakeAllWakes(k.tasks, k.childWait);
  }

  lemma WaitUnmoved(k: Kernel, to: nat, t: nat)
    requires Base(k) && Fixed(k) && to in k.tasks && WaitPc(Me(k).pc) && t in k.tasks && t != k.current
    ensures Unmoved(k, WaitActed(k, to), t)
  {
  }

  lemma ExecUnmoved(k: Kernel, t: nat)
    requires Base(k) && Fixed(k) && ExecPc(Me(k).pc) && t in k.tasks && t != k.current
    ensures Unmoved(k, ExecActed(k), t)
  {
  }

  lemma FreeUnmoved(k: Kernel, t: nat)
    requires Base(k) && Fixed(k) && FreePc(Me(k).pc) && t in k.tasks && t != k.current
    ensures Unmoved(k, FreeActed(k), t)
  {
  }

  lemma ExitUnmoved(k: Kernel, to: nat, t: nat)
    requires Base(k) && Fixed(k) && to in k.tasks && ExitPc(Me(k).pc) && t in k.tasks && t != k.current
    ensures Unmoved(k, ExitActed(k, to), t)
  {
    if Me(k).pc.WakeWaiters? {
      WakeUnmoved(k, WakeReaper(Me(k).pc.status), t);
    }
  }

  lemma ChosenUnmoved(k: Kernel, choice: Choice, t: nat)
    requires Base(k) && Fixed(k) && t in k.tasks && t != k.current
    ensures Unmoved(k, Chosen(k, choice), t)
  {
  }

  /** A step of another task, or a switch. */
  lemma Bystander(k: Kernel, e: Event, k': Kernel, t: nat)
    requires Base(k) && Enabled(k, e) && k' == Next(k, e) && t in k.tasks
    requires e.Switch? || t != k.current
    requires !(e.Act? && ReapPc(Me(k).pc))
    ensures Unmoved(k, k', t)
  {
    if e.Act? {
      var pc := Me(k).pc;
      if pc == User {
        ChosenUnmoved(k, e.choice, t);
      } else if pc.Spawn? {
        assert t != k.nextTask;
      } else if WaitPc(pc) {
        WaitUnmoved(k, e.to, t);
      } else if ExecPc(pc) {
        ExecUnmoved(k, t);
      } else if FreePc(pc) {
        FreeUnmoved(k, t);
      } else {
        ExitUnmoved(k, e.to, t);
      }
    }
  }

  // ---- delivery -------------------------------------------------------------------------------------------

  /** A step of the reaper pays one off ... */
  lemma ReaperPays(k: Kernel, e: Event, k': Kernel, rest: seq<Event>)
    requires Enabled(k, e) && k' == Next(k, e) && ReaperActs(k, e) && ReaperOwes(k) && Me(k).pc != ReaperWake
    ensures ReaperOwes(k') && k'.childWait == k.childWait
    ensures Debt(k', rest) + 1 == if Me(k).pc == TakeSpaces then |k.released| + 3 else |Me(k).pc.spaces| + 2
  {
    assert k' == FreeActed(k);
  }

  /** ... and the last is the `wake_all`. */
  lemma ReaperWakes(k: Kernel, e: Event, k': Kernel, t: nat)
    requires Base(k) && Enabled(k, e) && k' == Next(k, e) && ReaperActs(k, e) && Me(k).pc == ReaperWake
    requires t in k.childWait
    ensures t in k'.tasks && k'.tasks[t].state == Ready
  {
    ReaperWakesAll(k, e);
    WakeDelivers(k, Reap, k');
  }

  lemma ReaperWakesAll(k: Kernel, e: Event)
    requires Enabled(k, e) && e.Act? && Me(k).pc == ReaperWake
    ensures Next(k, e) == DoWakeAll(k, Reap)
  {
  }

  /** Steps of others change nothing the debt depends on. */
  lemma OthersWait(k: Kernel, e: Event, k': Kernel)
    requires Base(k) && Enabled(k, e) && k' == Next(k, e) && !ReaperActs(k, e) && ReaperOwes(k)
    ensures ReaperOwes(k') && k'.tasks[REAPER].pc == k.tasks[REAPER].pc
  {
    assert TaskOk(k.procs, k.current, Me(k));
    Bystander(k, e, k', REAPER);
  }

  lemma {:induction false} ReaperDelivers(k: Kernel, events: seq<Event>, k': Kernel, t: nat)
    requires Base(k) && Reaches(k, events, k') && ReaperOwes(k) && t in k.childWait
    requires ReaperSteps(k, events) >= Debt(k, events)
    ensures WokenDuring(k, events, t)
    decreases |events|
  {
    var e, rest := events[0], events[1..];
    var next := Next(k, e);
    BaseStep(k, e, next);
    if ReaperActs(k, e) {
      if Me(k).pc == ReaperWake {
        ReaperWakes(k, e, next, t);
      } else {
        ReaperPays(k, e, next, rest);
        ReaperDelivers(next, rest, k', t);
      }
    } else {
      OthersWait(k, e, next);
      assert TaskOk(k.procs, k.current, Me(k));
      Bystander(k, e, next, t);
      if next.tasks[t].state != Ready {
        ReaperDelivers(next, rest, k', t);
      }
    }
  }

  /** From boot on: a task asleep in `wait4` while a child it waits for is gone
      is woken, by the next step if a task is exiting, and otherwise by the time the reaper has
      taken the steps it owes. */
  lemma WakeArrives(first: nat, past: seq<Event>, k: Kernel, t: nat, events: seq<Event>, k': Kernel)
    requires first == IDLE || first == REAPER || first == 2
    requires Reaches(Boot(first), past, k) && t in k.tasks && k.tasks[t].state == Blocked && t != REAPER
    requires k.tasks[t].pc.WaitLoop? && ChildGone(k.procs, k.tasks[t].process, k.tasks[t].pc.target)
    requires Reaches(k, events, k') && events != []
    requires k.tasks[k.current].pc.WakeWaiters? || ReaperSteps(k, events) >= Debt(k, events)
    ensures WokenDuring(k, events, t)
  {
    NoLostWakeup(first, past, k, t);
    BootBase(first);
    BootWaits(first);
    RunKeeps(Boot(first), past, k);
    if Me(k).pc.WakeWaiters? {
      ExitDelivers(k, events, t);
    } else {
      ReaperDelivers(k, events, k', t);
    }
  }

  lemma ExitDelivers(k: Kernel, events: seq<Event>, t: nat)
    requires Base(k) && events != [] && Enabled(k, events[0]) && Me(k).pc.WakeWaiters? && t in k.childWait
    ensures WokenDuring(k, events, t)
  {
    assert TaskOk(k.procs, k.current, Me(k));
    WakeDelivers(k, WakeReaper(Me(k).pc.status), Next(k, events[0]));
    assert WokenDuring(Next(k, events[0]), events[1..], t);
  }
}
