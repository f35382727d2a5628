/** Exit, reaping, waiting and `exec` as one state machine. A step is one critical section of
    the running task; between two steps the timer may switch to any ready task, except inside
    `exit_current`, which runs with interrupts off. The scheduling policy is not modelled.
  */
module ExitProtocol {
  import opened Outcomes
  import opened Processes

  const IDLE: nat := 0
  const REAPER: nat := 1

  datatype State = Ready | Blocked | Exited

  /** Where a task is: what it does next. */
  datatype Pc =
    | User
    // spawn: the image's space is registered, the process is not created yet
    | Spawn(image: nat)
    // wait4: the first look, the sleeping loop, the look after it, the collection
    | WaitCheck(target: Option<nat>, noHang: bool)
    | WaitLoop(target: Option<nat>)
    | WaitAgain(target: Option<nat>)
    | Collect(child: nat)
    | CollectReap(child: nat, status: int)
    // release_reaped_spaces
    | TakeSpaces
    | FreeSpaces(spaces: seq<nat>)
    // exec: record, task and CPU move to the image one after the other
    | ExecSet(image: nat)
    | ExecBind(image: nat, previous: Option<nat>)
    | ExecActivate(image: nat, previous: Option<nat>)
    | ExecFree(previous: Option<nat>)
    // exit_current, after the scheduler has made the task terminal
    | Reparent(status: int)
    | WakeWaiters(status: int)
    | WakeReaper(status: int)
    | SetStatus(status: int)
    | Leave
    // the reaper
    | ReaperWait
    | Reap
    | Retire(task: nat, process: nat)
    | ReaperWake

  datatype Task = Task(process: nat, space: Option<nat>, state: State, pc: Pc)

  type Tasks = map<nat, Task>

  /** Who must release a registered address space. */
  datatype Holder = Process(pid: nat) | Released | Agent(task: nat)

  datatype Kernel = Kernel(
    procs: Procs, released: seq<nat>, tasks: Tasks, exitQueue: seq<nat>, childWait: seq<nat>, reaperWaits: bool,
    current: nat, active: Option<nat>, owner: map<nat, Holder>, freed: set<nat>, nextPid: nat, nextTask: nat,
        nextSpace: nat)

  datatype Choice =
    | StartSpawn
    | SpawnKernelTask
    | StartWait(target: Option<nat>, noHang: bool)
    | StartExec
    | StartExit(status: int)

  datatype Event = Switch(to: nat) | Act(choice: Choice, to: nat)

  // ---- waking ----------------------------------------------------------------------------------------

  /** `wake_all`: pops and wakes from the front, but stops at a task that is not blocked. */
  function WakeAll(tasks: Tasks, queue: seq<nat>): (r: (Tasks, seq<nat>))
    ensures r.0.Keys == tasks.Keys
  {
    if queue == [] then (tasks, [])
    else if queue[0] !in tasks || tasks[queue[0]].state != Blocked then (tasks, queue[1..])
    else WakeAll(tasks[queue[0] := tasks[queue[0]].(state := Ready)], queue[1..])
  }

  /** What it comes to when every queued task is blocked. */
  function Woken(tasks: Tasks, queue: seq<nat>): Tasks {
    map t | t in tasks :: if t in queue then tasks[t].(state := Ready) else tasks[t]
  }

  lemma {:induction false} WakeAllWakes(tasks: Tasks, queue: seq<nat>)
    requires Distinct(queue) && forall t :: t in queue ==> t in tasks && tasks[t].state == Blocked
    ensures WakeAll(tasks, queue) == (Woken(tasks, queue), [])
  {
    if queue == [] {
      assert Woken(tasks, queue) == tasks;
    } else {
      var next := tasks[queue[0] := tasks[queue[0]].(state := Ready)];
      forall t | t in queue[1..]
        ensures t in next && next[t].state == Blocked
      {
        assert t in queue && t != queue[0];
      }
      WakeAllWakes(next, queue[1..]);
      assert Woken(next, queue[1..]) == Woken(tasks, queue);
    }
  }

  // ---- the answer of wait4's look at the table ----------------------------------------------------

  datatype Answer = NoChild | NotYet | Child(pid: nat)

  function Look(procs: Procs, parent: nat, target: Option<nat>): Answer {
    match target
    case Some(c) =>
      if c !in procs || procs[c].parent != Some(parent) then NoChild
      else if Collectable(procs, c) then Child(c) else NotYet
    case None =>
      if parent !in procs || procs[parent].children == [] then NoChild
      else
        var first := FirstExited(procs, procs[parent].children);
        if first.Some? then Child(first.value) else NotYet
  }

  /** The process has children, or the one it asks for. */
  ghost predicate HasChild(procs: Procs, p: nat, target: Option<nat>) {
    match target
    case Some(c) => c in procs && procs[c].parent == Some(p)
    case None => p in procs && procs[p].children != []
  }

  /** A child it waits for has a status and no thread left. */
  ghost predicate ChildGone(procs: Procs, p: nat, target: Option<nat>) {
    match target
    case Some(c) => HasChild(procs, p, target) && procs[c].status.Some? && procs[c].threads == []
    case None =>
      p in procs && exists c :: c in procs[p].children && c in procs && procs[c].status.Some? && procs[c].threads == []
  }

  /** `c` is the child to collect: the one asked for, or the oldest that is gone. */
  ghost predicate ToCollect(procs: Procs, p: nat, target: Option<nat>, c: nat) {
    match target
    case Some(asked) => c == asked && ChildGone(procs, p, target)
    case None => p in procs && OldestGone(procs, procs[p].children, c)
  }

  /** What the look answers, said by the records. */
  lemma LookIs(procs: Procs, p: nat, target: Option<nat>)
    ensures Look(procs, p, target) == NoChild <==> !HasChild(procs, p, target)
    ensures Look(procs, p, target) == NotYet <==> HasChild(procs, p, target) && !ChildGone(procs, p, target)
    ensures forall c: nat :: Look(procs, p, target) == Child(c) <==> ToCollect(procs, p, target, c)
  {
    if target.None? && p in procs {
      forall c: nat
        ensures FirstExited(procs, procs[p].children) == Some(c) <==> OldestGone(procs, procs[p].children, c)
      {
        FirstExitedIs(procs, procs[p].children, c);
      }
    }
  }

  /** Whether a wake-up of CHILD_WAIT is still to come. */
  predicate WakePending(k: Kernel) {
    || (k.current in k.tasks && k.tasks[k.current].pc.WakeWaiters?)
    || (REAPER in k.tasks && k.tasks[REAPER].pc.TakeSpaces?)
    || (REAPER in k.tasks && (k.tasks[REAPER].pc.FreeSpaces? || k.tasks[REAPER].pc.ReaperWake?))
  }

  // ---- steps -----------------------------------------------------------------------------------------

  function Me(k: Kernel): Task
    requires k.current in k.tasks
  {
    k.tasks[k.current]
  }

  function At(k: Kernel, pc: Pc): Kernel
    requires k.current in k.tasks
  {
    k.(tasks := k.tasks[k.current := Me(k).(pc := pc)])
  }

  function Switched(k: Kernel, to: nat): Kernel
    requires to in k.tasks
  {
    k.(current := to, active := k.tasks[to].space)
  }

  function Register(k: Kernel): Kernel {
    k.(owner := k.owner[k.nextSpace := Agent(k.current)], nextSpace := k.nextSpace + 1)
  }

  function Free(k: Kernel, s: nat): Kernel {
    k.(owner := k.owner - {s}, freed := k.freed + {s})
  }

  function Give(owner: map<nat, Holder>, spaces: seq<nat>, holder: Holder): map<nat, Holder> {
    map s | s in owner :: if s in spaces then holder else owner[s]
  }

  function DoSpawn(k: Kernel, image: nat): Kernel
    requires k.current in k.tasks
  {
    var child := Task(k.nextPid, Some(image), Ready, User);
    k.(procs := Created(k.procs, k.nextPid, Some(Me(k).process), Some(image), k.nextTask),
       tasks := k.tasks[k.current := Me(k).(pc := User)][k.nextTask := child],
       owner := k.owner[image := Process(k.nextPid)], nextPid := k.nextPid + 1, nextTask := k.nextTask + 1)
  }

  function DoSpawnKernelTask(k: Kernel): Kernel {
    k.(procs := Created(k.procs, k.nextPid, None, None, k.nextTask),
       tasks := k.tasks[k.nextTask := Task(k.nextPid, None, Ready, User)],
       nextPid := k.nextPid + 1, nextTask := k.nextTask + 1)
  }

  function DoExit(k: Kernel, status: int): Kernel
    requires k.current in k.tasks
  {
    k.(tasks := k.tasks[k.current := Me(k).(state := Exited, pc := Reparent(status))],
        exitQueue := k.exitQueue + [k.current])
  }

  function AfterLook(answer: Answer, target: Option<nat>, noHang: bool): Pc {
    match answer
    case NoChild => User
    case NotYet => if noHang then User else WaitLoop(target)
    case Child(c) => Collect(c)
  }

  function DoWaitLoop(k: Kernel, target: Option<nat>, to: nat): Kernel
    requires k.current in k.tasks && to in k.tasks
  {
    if Look(k.procs, Me(k).process, target) != NotYet then At(k, WaitAgain(target))
    else Switched(k.(tasks := k.tasks[k.current := Me(k).(state := Blocked)], childWait := k.childWait + [k.current]),
        to)
  }

  /** Reap `p` if it can be, its space going to the released list. */
  function DoReap(k: Kernel, p: nat): Kernel {
    k.(procs := Reaped(k.procs, p), released := k.released + ReapedSpace(k.procs, p),
       owner := Give(k.owner, ReapedSpace(k.procs, p), Released))
  }

  function DoCollect(k: Kernel, child: nat): Kernel
    requires k.current in k.tasks
  {
    if CanCollect(k.procs, Me(k).process, child) then
      At(DoReap(k.(procs := Disowned(k.procs, Me(k).process, child)), child),
         CollectReap(child, k.procs[child].status.value))
    else At(k, User)
  }

  function DoTakeSpaces(k: Kernel): Kernel
    requires k.current in k.tasks
  {
    At(k.(released := [], owner := Give(k.owner, k.released, Agent(k.current))), FreeSpaces(k.released))
  }

  function DoFreeSpaces(k: Kernel, spaces: seq<nat>): Kernel
    requires k.current in k.tasks
  {
    if spaces == [] then At(k, if k.current == REAPER then ReaperWake else User)
    else At(Free(k, spaces[0]), FreeSpaces(spaces[1..]))
  }

  function DoExecSet(k: Kernel, image: nat): Kernel
    requires k.current in k.tasks && Me(k).process in k.procs
  {
    var p := Me(k).process;
    var given := k.owner[image := Process(p)];
    At(k.(procs := k.procs[p := k.procs[p].(space := Some(image))],
          owner := if Me(k).space.Some? then given[Me(k).space.value := Agent(k.current)] else given),
       ExecBind(image, Me(k).space))
  }

  function DoExecBind(k: Kernel, image: nat, previous: Option<nat>): Kernel
    requires k.current in k.tasks
  {
    k.(tasks := k.tasks[k.current := Me(k).(space := Some(image), pc := ExecActivate(image, previous))])
  }

  function DoExecFree(k: Kernel, previous: Option<nat>): Kernel
    requires k.current in k.tasks
  {
    At(if previous.Some? then Free(k, previous.value) else k, User)
  }

  function DoWakeReaper(k: Kernel, status: int): Kernel
    requires k.current in k.tasks && REAPER in k.tasks
  {
    var woken := if k.reaperWaits then k.tasks[REAPER := k.tasks[REAPER].(state := Ready)] else k.tasks;
    At(k.(tasks := woken, reaperWaits := false), SetStatus(status))
  }

  function DoSetStatus(k: Kernel, status: int): Kernel
    requires k.current in k.tasks
  {
    var p := Me(k).process;
    if p !in k.procs || k.procs[p].status.Some? then At(k, Leave)
    else At(k.(procs := k.procs[p := k.procs[p].(status := Some(status))]), Leave)
  }

  function DoWakeAll(k: Kernel, pc: Pc): Kernel
    requires k.current in k.tasks
  {
    var (tasks, queue) := WakeAll(k.tasks, k.childWait);
    At(k.(tasks := tasks, childWait := queue), pc)
  }

  function DoReaperWait(k: Kernel, to: nat): Kernel
    requires k.current in k.tasks && to in k.tasks
  {
    if k.exitQueue != [] then At(k, Reap)
    else Switched(k.(tasks := k.tasks[k.current := Me(k).(state := Blocked)], reaperWaits := true), to)
  }

  function DoReapTask(k: Kernel): Kernel
    requires k.current in k.tasks
  {
    if k.exitQueue == [] || k.exitQueue[0] !in k.tasks || k.exitQueue[0] == k.current then At(k, ReaperWait)
    else
      var t := k.exitQueue[0];
      var rest := At(k, Retire(t, k.tasks[t].process));
      rest.(tasks := rest.tasks - {t}, exitQueue := k.exitQueue[1..])
  }

  function DoRetire(k: Kernel, t: nat, p: nat): Kernel
    requires k.current in k.tasks
  {
    At(DoReap(k.(procs := ThreadDropped(k.procs, p, t)), p), TakeSpaces)
  }

  predicate Fixed(k: Kernel) {
    k.current in k.tasks && REAPER in k.tasks && Me(k).process in k.procs
  }

  /** What the running task may do. Exiting tasks cannot be preempted; PID 1 does not exit. */
  predicate Enabled(k: Kernel, e: Event) {
    && Fixed(k) && e.to in k.tasks && k.tasks[e.to].state == Ready
    && match e
       case Switch(_) => Me(k).state != Exited
       case Act(choice, to) =>
         && (Me(k).pc == User ==> k.current != IDLE && (choice.StartExit? ==> Me(k).process != INIT_PID))
         && (Me(k).pc.WaitLoop? || Me(k).pc == ReaperWait || Me(k).pc == Leave ==> to != k.current)
  }

  function Chosen(k: Kernel, choice: Choice): Kernel
    requires Fixed(k)
  {
    match choice
    case StartSpawn => At(Register(k), Spawn(k.nextSpace))
    case SpawnKernelTask => DoSpawnKernelTask(k)
    case StartWait(target, noHang) => At(k, WaitCheck(target, noHang))
    case StartExec => At(Register(k), ExecSet(k.nextSpace))
    case StartExit(status) => DoExit(k, status)
  }

  predicate WaitPc(pc: Pc) {
    pc.WaitCheck? || pc.WaitLoop? || pc.WaitAgain? || pc == ReaperWait
  }

  function WaitActed(k: Kernel, to: nat): Kernel
    requires Fixed(k) && to in k.tasks && WaitPc(Me(k).pc)
  {
    match Me(k).pc
    case WaitCheck(target, noHang) => At(k, AfterLook(Look(k.procs, Me(k).process, target), target, noHang))
    case WaitLoop(target) => DoWaitLoop(k, target, to)
    case WaitAgain(target) => At(k, AfterLook(Look(k.procs, Me(k).process, target), target, true))
    case ReaperWait => DoReaperWait(k, to)
  }

  predicate ExecPc(pc: Pc) {
    pc.ExecSet? || pc.ExecBind? || pc.ExecActivate? || pc.ExecFree?
  }

  function ExecActed(k: Kernel): Kernel
    requires Fixed(k) && ExecPc(Me(k).pc)
  {
    match Me(k).pc
    case ExecSet(image) => DoExecSet(k, image)
    case ExecBind(image, previous) => DoExecBind(k, image, previous)
    case ExecActivate(image, previous) => At(k.(active := Some(image)), ExecFree(previous))
    case ExecFree(previous) => DoExecFree(k, previous)
  }

  /** Between becoming terminal and recording the status: interrupts are off. */
  predicate Exiting(pc: Pc) {
    pc.Reparent? || pc.WakeWaiters? || pc.WakeReaper? || pc.SetStatus?
  }

  predicate ExitPc(pc: Pc) {
    Exiting(pc) || pc == Leave
  }

  function ExitActed(k: Kernel, to: nat): Kernel
    requires Fixed(k) && to in k.tasks && ExitPc(Me(k).pc)
  {
    match Me(k).pc
    case Reparent(status) => At(k.(procs := Reparented(k.procs, Me(k).process, INIT_PID)), WakeWaiters(status))
    case WakeWaiters(status) => DoWakeAll(k, WakeReaper(status))
    case WakeReaper(status) => DoWakeReaper(k, status)
    case SetStatus(status) => DoSetStatus(k, status)
    case Leave => Switched(k, to)
  }

  predicate FreePc(pc: Pc) {
    pc.Collect? || pc.CollectReap? || pc == TakeSpaces || pc.FreeSpaces?
  }

  function FreeActed(k: Kernel): Kernel
    requires Fixed(k) && FreePc(Me(k).pc)
  {
    match Me(k).pc
    case Collect(child) => DoCollect(k, child)
    case CollectReap(child, _) => At(DoReap(k, child), TakeSpaces)
    case TakeSpaces => DoTakeSpaces(k)
    case FreeSpaces(spaces) => DoFreeSpaces(k, spaces)
  }

  predicate ReapPc(pc: Pc) {
    pc == Reap || pc.Retire? || pc == ReaperWake
  }

  function ReapActed(k: Kernel): Kernel
    requires Fixed(k) && ReapPc(Me(k).pc)
  {
    match Me(k).pc
    case Reap => DoReapTask(k)
    case Retire(t, p) => DoRetire(k, t, p)
    case ReaperWake => DoWakeAll(k, Reap)
  }

  function Acted(k: Kernel, choice: Choice, to: nat): Kernel
    requires Fixed(k) && to in k.tasks
  {
    var pc := Me(k).pc;
    if pc == User then Chosen(k, choice)
    else if pc.Spawn? then DoSpawn(k, pc.image)
    else if WaitPc(pc) then WaitActed(k, to)
    else if ExecPc(pc) then ExecActed(k)
    else if FreePc(pc) then FreeActed(k)
    else if ReapPc(pc) then ReapActed(k)
    else ExitActed(k, to)
  }

  function Next(k: Kernel, e: Event): Kernel
    requires Enabled(k, e)
  {
    match e
    case Switch(to) => Switched(k, to)
    case Act(choice, to) => Acted(k, choice, to)
  }

  /** The kernel after `scheduler::init`, the reaper and PID 1 ready. */
  function Boot(current: nat): Kernel {
    var pcbs: Procs := map[INIT_PID := NewPcb(None, None, 2), 2 := NewPcb(None, None, IDLE),
        3 := NewPcb(None, None, REAPER)];
    var tasks: Tasks := map[IDLE := Task(2, None, Ready, User), REAPER := Task(3, None, Ready, ReaperWait),
        2 := Task(INIT_PID, None, Ready, User)];
    Kernel(pcbs, [], tasks, [], [], false, current, None, map[], {}, 4, 3, 0)
  }

  /** `k'` is where the events take `k`. */
  ghost predicate Reaches(k: Kernel, events: seq<Event>, k': Kernel)
    decreases |events|
  {
    if events == [] then k' == k else Enabled(k, events[0]) && Reaches(Next(k, events[0]), events[1..], k')
  }
}
