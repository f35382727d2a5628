/** Every registered address space is released exactly once, by the `exec` that replaces it or
    after its process is reaped, and never while it is the active one.
  */
module SpaceLedger {
  import opened Outcomes
  import opened Processes
  import opened ExitProtocol
  import opened ExitProtocolTasks

  function AsSeq(s: Option<nat>): seq<nat> {
    if s.Some? then [s.value] else []
  }

  lemma InAsSeq(o: Option<nat>, s: nat)
    ensures s in AsSeq(o) <==> o == Some(s)
  {
  }

  /** The spaces a task itself has to hand on or release. */
  function Held(pc: Pc): seq<nat> {
    match pc
    case Spawn(image) => [image]
    case FreeSpaces(spaces) => spaces
    case ExecSet(image) => [image]
    case ExecBind(_, previous) => AsSeq(previous)
    case ExecActivate(_, previous) => AsSeq(previous)
    case ExecFree(previous) => AsSeq(previous)
    case _ => []
  }

  ghost predicate HeldBy(owner: map<nat, Holder>, spaces: seq<nat>, holder: Holder) {
    Distinct(spaces) && forall s :: s in spaces ==> s in owner && owner[s] == holder
  }

  /** The task runs in its process's space, but for the middle of `exec`. */
  predicate RunsIn(task: Task, space: Option<nat>) {
    match task.pc
    case ExecBind(image, previous) => task.space == previous && space == Some(image)
    case ExecActivate(image, _) => task.space == Some(image) && space == Some(image)
    case _ => task.space == space
  }

  ghost predicate TaskHolds(procs: Procs, owner: map<nat, Holder>, t: nat, task: Task) {
    && HeldBy(owner, Held(task.pc), Agent(t))
    && (task.process in procs ==> RunsIn(task, procs[task.process].space))
  }

  ghost predicate ProcHolds(procs: Procs, owner: map<nat, Holder>, p: nat)
    requires p in procs
  {
    HeldBy(owner, AsSeq(procs[p].space), Process(p))
  }

  /** The holder named for a space does hold it. */
  ghost predicate IsHeld(procs: Procs, released: seq<nat>, tasks: Tasks, s: nat, holder: Holder) {
    match holder
    case Process(p) => p in procs && procs[p].space == Some(s)
    case Released => s in released
    case Agent(t) => t in tasks && s in Held(tasks[t].pc)
  }

  ghost predicate Ledger(procs: Procs, released: seq<nat>, tasks: Tasks, owner: map<nat, Holder>) {
    && HeldBy(owner, released, Released)
    && (forall p {:trigger ProcHolds(procs, owner, p)} :: p in procs ==> ProcHolds(procs, owner, p))
    && (forall t {:trigger TaskHolds(procs, owner, t, tasks[t])} :: t in tasks ==> TaskHolds(procs, owner, t, tasks[t]))
    && (forall s {:trigger IsHeld(procs, released, tasks, s, owner[s])} :: s in owner ==>
        IsHeld(procs, released, tasks, s, owner[s]))
  }

  /** Each id ever registered is still held or has been freed, not both. */
  ghost predicate Accounts(owner: map<nat, Holder>, freed: set<nat>, nextSpace: nat) {
    && (forall s :: s in owner ==> s < nextSpace && s !in freed)
    && (forall s :: s in freed ==> s < nextSpace)
    && forall s: nat :: s < nextSpace ==> s in owner || s in freed
  }

  /** The CPU runs in the current task's space, or in the one `exec` is leaving. */
  ghost predicate ActiveOk(k: Kernel) {
    k.current in k.tasks &&
    (k.active == Me(k).space || (Me(k).pc.ExecActivate? && k.active == Me(k).pc.previous))
  }

  ghost predicate SpacesOk(k: Kernel) {
    Ledger(k.procs, k.released, k.tasks, k.owner) && Accounts(k.owner, k.freed, k.nextSpace) && ActiveOk(k)
  }

  // ---- the ledger under small changes ---------------------------------------------------------------------

  /** Same records as far as spaces go. */
  predicate SameSpaces(procs: Procs, procs': Procs) {
    procs'.Keys == procs.Keys && forall p :: p in procs ==> procs'[p].space == procs[p].space
  }

  /** Same tasks as far as spaces go. */
  ghost predicate SameHands(tasks: Tasks, tasks': Tasks) {
    && tasks'.Keys == tasks.Keys
    && forall t {:trigger Alike(tasks[t], tasks'[t])} :: t in tasks ==> Alike(tasks[t], tasks'[t])
  }

  predicate Alike(a: Task, b: Task) {
    && b.process == a.process && b.space == a.space && Held(b.pc) == Held(a.pc)
    && (a.pc.ExecBind? || b.pc.ExecBind? || a.pc.ExecActivate? || b.pc.ExecActivate? ==> a.pc == b.pc)
  }

  lemma LedgerFrame(procs: Procs, procs': Procs, released: seq<nat>, tasks: Tasks, tasks': Tasks,
                    owner: map<nat, Holder>)
    requires Ledger(procs, released, tasks, owner) && SameSpaces(procs, procs') && SameHands(tasks, tasks')
    ensures Ledger(procs', released, tasks', owner)
  {
    forall p | p in procs'
      ensures ProcHolds(procs', owner, p)
    {
      assert ProcHolds(procs, owner, p);
    }
    forall t | t in tasks'
      ensures TaskHolds(procs', owner, t, tasks'[t])
    {
      assert Alike(tasks[t], tasks'[t]);
      assert TaskHolds(procs, owner, t, tasks[t]);
    }
    forall s | s in owner
      ensures IsHeld(procs', released, tasks', s, owner[s])
    {
      assert IsHeld(procs, released, tasks, s, owner[s]);
      if owner[s].Agent? {
        assert Alike(tasks[owner[s].task], tasks'[owner[s].task]);
      }
    }
  }

  /** A change that has nothing to do with spaces. */
  lemma PlainStep(k: Kernel, k': Kernel)
    requires SpacesOk(k) && SameSpaces(k.procs, k'.procs) && SameHands(k.tasks, k'.tasks) && k'.current == k.current
    requires k'.released == k.released && k'.owner == k.owner && k'.freed == k.freed && k'.nextSpace == k.nextSpace
    requires k'.active == k.active
    ensures SpacesOk(k')
  {
    LedgerFrame(k.procs, k'.procs, k.released, k.tasks, k'.tasks, k.owner);
    assert Alike(k.tasks[k.current], k'.tasks[k.current]);
  }

  /** ... ending in a switch. */
  lemma PlainSwitch(k: Kernel, k': Kernel)
    requires SpacesOk(k) && SameSpaces(k.procs, k'.procs) && SameHands(k.tasks, k'.tasks) && k'.current in k'.tasks
    requires k'.released == k.released && k'.owner == k.owner && k'.freed == k.freed && k'.nextSpace == k.nextSpace
    requires k'.active == k'.tasks[k'.current].space
    ensures SpacesOk(k')
  {
    LedgerFrame(k.procs, k'.procs, k.released, k.tasks, k'.tasks, k.owner);
  }

  // ---- spaces changing hands ----------------------------------------------------------------------------------

  /** Only space `n` has a new holder, the running task `c`, which moves on to hold just it. */
  lemma RegisterLedger(procs: Procs, released: seq<nat>, tasks: Tasks, owner: map<nat, Holder>, c: nat, n: nat,
                       task: Task)
    requires Ledger(procs, released, tasks, owner) && c in tasks && n !in owner && Held(tasks[c].pc) == []
    requires Held(task.pc) == [n]
    requires task == tasks[c].(pc := task.pc) && RunsIn(tasks[c], tasks[c].space) && RunsIn(task, task.space)
    ensures Ledger(procs, released, tasks[c := task], owner[n := Agent(c)])
  {
    var (tasks', owner') := (tasks[c := task], owner[n := Agent(c)]);
    forall p | p in procs
      ensures ProcHolds(procs, owner', p)
    {
      assert ProcHolds(procs, owner, p);
    }
    forall t | t in tasks'
      ensures TaskHolds(procs, owner', t, tasks'[t])
    {
      assert TaskHolds(procs, owner, t, tasks[t]);
    }
    forall s | s in owner'
      ensures IsHeld(procs, released, tasks', s, owner'[s])
    {
      if s != n {
        assert IsHeld(procs, released, tasks, s, owner[s]);
      }
    }
  }

  /** A new process takes the image its creator registered, or has no space. */
  ghost predicate Spawned(procs: Procs, tasks: Tasks, owner: map<nat, Holder>, c: nat, parent: Option<nat>,
                          space: Option<nat>,
                          pid: nat, tid: nat, task: Task, procs': Procs, tasks': Tasks, owner': map<nat, Holder>)
  {
    && c in tasks && Held(tasks[c].pc) == AsSeq(space) && Held(task.pc) == []
    && task == tasks[c].(pc := task.pc) && RunsIn(tasks[c], tasks[c].space) && RunsIn(task, task.space)
    && pid !in procs && tid !in tasks && (forall t :: t in tasks ==> tasks[t].process in procs)
    && procs' == Created(procs, pid, parent, space, tid)
    && tasks' == tasks[c := task][tid := Task(pid, space, Ready, User)]
    && owner' == if space.Some? then owner[space.value := Process(pid)] else owner
  }

  lemma SpawnLedger(procs: Procs, released: seq<nat>, tasks: Tasks, owner: map<nat, Holder>, c: nat,
                    parent: Option<nat>,
                    space: Option<nat>, pid: nat, tid: nat, task: Task, procs': Procs, tasks': Tasks,
                        owner': map<nat, Holder>)
    requires Ledger(procs, released, tasks, owner)
    requires Spawned(procs, tasks, owner, c, parent, space, pid, tid, task, procs', tasks', owner')
    ensures Ledger(procs', released, tasks', owner')
  {
    assert TaskHolds(procs, owner, c, tasks[c]);
    assert space.Some? ==> space.value in Held(tasks[c].pc);
    assert HeldBy(owner', released, Released) by {
      assert HeldBy(owner, released, Released);
    }
    forall p | p in procs'
      ensures ProcHolds(procs', owner', p)
    {
      assert p != pid ==> ProcHolds(procs, owner, p);
    }
    forall t | t in tasks'
      ensures TaskHolds(procs', owner', t, tasks'[t])
    {
      assert t != tid ==> TaskHolds(procs, owner, t, tasks[t]);
    }
    forall s | s in owner'
      ensures IsHeld(procs', released, tasks', s, owner'[s])
    {
      SpawnOwner(procs, released, tasks, owner, c, parent, space, pid, tid, task, procs', tasks', owner', s);
    }
  }

  lemma SpawnOwner(procs: Procs, released: seq<nat>, tasks: Tasks, owner: map<nat, Holder>, c: nat, parent: Option<nat>,
                   space: Option<nat>, pid: nat, tid: nat, task: Task, procs': Procs, tasks': Tasks,
                       owner': map<nat, Holder>, s: nat)
    requires Spawned(procs, tasks, owner, c, parent, space, pid, tid, task, procs', tasks', owner')
    requires s in owner' && (s in owner ==> IsHeld(procs, released, tasks, s, owner[s]))
    ensures IsHeld(procs', released, tasks', s, owner'[s])
  {
    if space == Some(s) {
      assert owner'[s] == Process(pid) && procs'[pid].space == space;
    }
  }

  /** Reaping hands the record's space to the released list. */
  lemma ReapLedger(k: Kernel, p: nat, k': Kernel)
    requires Base(k) && Ledger(k.procs, k.released, k.tasks, k.owner) && k' == DoReap(k, p) && CanReap(k.procs, p)
    ensures Ledger(k'.procs, k'.released, k'.tasks, k'.owner)
  {
    ReapedFamily(k.procs, p);
    assert ProcHolds(k.procs, k.owner, p);
    forall q | q in k'.procs
      ensures ProcHolds(k'.procs, k'.owner, q)
    {
      assert ProcHolds(k.procs, k.owner, q);
    }
    forall t | t in k'.tasks
      ensures TaskHolds(k'.procs, k'.owner, t, k'.tasks[t])
    {
      assert TaskHolds(k.procs, k.owner, t, k.tasks[t]);
      assert TaskOk(k.procs, t, k.tasks[t]);
    }
    forall s | s in k'.owner
      ensures IsHeld(k'.procs, k'.released, k'.tasks, s, k'.owner[s])
    {
      assert IsHeld(k.procs, k.released, k.tasks, s, k.owner[s]);
    }
    assert HeldBy(k'.owner, k'.released, Released) by {
      assert HeldBy(k.owner, k.released, Released);
      DistinctConcat(k.released, ReapedSpace(k.procs, p));
    }
  }

  lemma ReapSpaces(k: Kernel, p: nat, k': Kernel)
    requires Base(k) && SpacesOk(k) && k' == DoReap(k, p)
    ensures SpacesOk(k')
  {
    if CanReap(k.procs, p) {
      ReapLedger(k, p, k');
      assert k'.owner.Keys == k.owner.Keys;
    } else {
      assert Give(k.owner, [], Released) == k.owner;
      assert k.released + [] == k.released;
      assert k' == k;
    }
  }

  /** The released list goes to the running task. */
  lemma TakeLedger(k: Kernel, k': Kernel)
    requires Ledger(k.procs, k.released, k.tasks, k.owner) && k.current in k.tasks && Me(k).pc == TakeSpaces
    requires k' == DoTakeSpaces(k)
    ensures Ledger(k'.procs, k'.released, k'.tasks, k'.owner)
  {
    assert TaskHolds(k.procs, k.owner, k.current, Me(k));
    forall q | q in k'.procs
      ensures ProcHolds(k'.procs, k'.owner, q)
    {
      assert ProcHolds(k.procs, k.owner, q);
    }
    forall t | t in k'.tasks
      ensures TaskHolds(k'.procs, k'.owner, t, k'.tasks[t])
    {
      assert TaskHolds(k.procs, k.owner, t, k.tasks[t]);
    }
    forall s | s in k'.owner
      ensures IsHeld(k'.procs, k'.released, k'.tasks, s, k'.owner[s])
    {
      assert IsHeld(k.procs, k.released, k.tasks, s, k.owner[s]);
    }
  }

  /** The running task releases the first space it holds. */
  lemma FreeLedger(procs: Procs, released: seq<nat>, tasks: Tasks, owner: map<nat, Holder>, c: nat, task: Task)
    requires Ledger(procs, released, tasks, owner) && c in tasks && Held(tasks[c].pc) != []
    requires Held(task.pc) == Held(tasks[c].pc)[1..]
    requires task == tasks[c].(pc := task.pc) && RunsIn(tasks[c], tasks[c].space) && RunsIn(task, task.space)
    ensures Ledger(procs, released, tasks[c := task], owner - {Held(tasks[c].pc)[0]})
  {
    var held := Held(tasks[c].pc);
    var (tasks', owner') := (tasks[c := task], owner - {held[0]});
    assert TaskHolds(procs, owner, c, tasks[c]) && held[0] in held && held == [held[0]] + held[1..];
    forall p | p in procs
      ensures ProcHolds(procs, owner', p)
    {
      assert ProcHolds(procs, owner, p);
    }
    forall t | t in tasks'
      ensures TaskHolds(procs, owner', t, tasks'[t])
    {
      assert TaskHolds(procs, owner, t, tasks[t]);
    }
    forall s | s in owner'
      ensures IsHeld(procs, released, tasks', s, owner'[s])
    {
      assert IsHeld(procs, released, tasks, s, owner[s]);
    }
  }

  /** `exec`: the record takes the image, the task keeps the old space to release it. */
  lemma ExecSetLedger(k: Kernel, image: nat, k': Kernel)
    requires Base(k) && Fixed(k) && Ledger(k.procs, k.released, k.tasks, k.owner) && Me(k).pc == ExecSet(image)
    requires k' == DoExecSet(k, image)
    ensures Ledger(k'.procs, k'.released, k'.tasks, k'.owner)
  {
    var p := Me(k).process;
    assert TaskOk(k.procs, k.current, Me(k));
    forall t | t in k.tasks && t != k.current
      ensures k.tasks[t].process != p
    {
      assert TaskOk(k.procs, t, k.tasks[t]);
    }
    ExecLedger(k.procs, k.released, k.tasks, k.owner, k.current, p, image, Me(k).space);
  }

  /** What the running task of process `p` is about to do: the new space is its own to give. */
  ghost predicate Handing(procs: Procs, tasks: Tasks, owner: map<nat, Holder>, c: nat, p: nat, image: nat,
                          space: Option<nat>)
  {
    && c in tasks && p in procs && tasks[c].process == p && tasks[c].pc == ExecSet(image) && tasks[c].space == space
    && TaskHolds(procs, owner, c, tasks[c]) && ProcHolds(procs, owner, p)
    && forall t :: t in tasks && t != c ==> tasks[t].process != p
  }

  function ExecOwner(owner: map<nat, Holder>, c: nat, p: nat, image: nat, space: Option<nat>): map<nat, Holder> {
    var given := owner[image := Process(p)];
    if space.Some? then given[space.value := Agent(c)] else given
  }

  /** The two spaces that change hands are the image, which the task held, and the process's old one. */
  lemma ExecHands(procs: Procs, tasks: Tasks, owner: map<nat, Holder>, c: nat, p: nat, image: nat, space: Option<nat>)
    requires Handing(procs, tasks, owner, c, p, image, space)
    ensures image in owner && owner[image] == Agent(c) && procs[p].space == space
    ensures space.Some? ==> space.value in owner && owner[space.value] == Process(p)
  {
    assert image in Held(tasks[c].pc);
    assert space.Some? ==> space.value in AsSeq(procs[p].space);
  }

  lemma ExecLedger(procs: Procs, released: seq<nat>, tasks: Tasks, owner: map<nat, Holder>, c: nat, p: nat, image: nat,
                   space: Option<nat>)
    requires Ledger(procs, released, tasks, owner) && c in tasks && p in procs && tasks[c].process == p
    requires tasks[c].pc == ExecSet(image) && tasks[c].space == space
    requires forall t :: t in tasks && t != c ==> tasks[t].process != p
    ensures Ledger(procs[p := procs[p].(space := Some(image))], released,
                   tasks[c := tasks[c].(pc := ExecBind(image, space))], ExecOwner(owner, c, p, image, space))
  {
    var procs' := procs[p := procs[p].(space := Some(image))];
    var tasks' := tasks[c := tasks[c].(pc := ExecBind(image, space))];
    var owner' := ExecOwner(owner, c, p, image, space);
    assert TaskHolds(procs, owner, c, tasks[c]) && ProcHolds(procs, owner, p);
    ExecHands(procs, tasks, owner, c, p, image, space);
    forall q | q in procs'
      ensures ProcHolds(procs', owner', q)
    {
      ExecProc(procs, tasks, owner, c, p, image, space, q);
    }
    forall t | t in tasks'
      ensures TaskHolds(procs', owner', t, tasks'[t])
    {
      ExecTask(procs, tasks, owner, c, p, image, space, t);
    }
    forall s | s in owner'
      ensures IsHeld(procs', released, tasks', s, owner'[s])
    {
      assert s in owner ==> IsHeld(procs, released, tasks, s, owner[s]);
      ExecHeld(procs, released, tasks, owner, c, p, image, space, s);
    }
  }

  lemma ExecProc(procs: Procs, tasks: Tasks, owner: map<nat, Holder>, c: nat, p: nat, image: nat, space: Option<nat>,
                 q: nat)
    requires Handing(procs, tasks, owner, c, p, image, space) && q in procs && ProcHolds(procs, owner, q)
    ensures ProcHolds(procs[p := procs[p].(space := Some(image))], ExecOwner(owner, c, p, image, space), q)
  {
    ExecHands(procs, tasks, owner, c, p, image, space);
  }

  lemma ExecTask(procs: Procs, tasks: Tasks, owner: map<nat, Holder>, c: nat, p: nat, image: nat, space: Option<nat>,
                 t: nat)
    requires Handing(procs, tasks, owner, c, p, image, space) && t in tasks && TaskHolds(procs, owner, t, tasks[t])
    ensures TaskHolds(procs[p := procs[p].(space := Some(image))], ExecOwner(owner, c, p, image, space), t,
                      tasks[c := tasks[c].(pc := ExecBind(image, space))][t])
  {
    ExecHands(procs, tasks, owner, c, p, image, space);
  }

  lemma ExecHeld(procs: Procs, released: seq<nat>, tasks: Tasks, owner: map<nat, Holder>, c: nat, p: nat, image: nat,
                 space: Option<nat>, s: nat)
    requires Handing(procs, tasks, owner, c, p, image, space) && s in ExecOwner(owner, c, p, image, space)
    requires s in owner ==> IsHeld(procs, released, tasks, s, owner[s])
    ensures IsHeld(procs[p := procs[p].(space := Some(image))], released,
                   tasks[c := tasks[c].(pc := ExecBind(image, space))], s, ExecOwner(owner, c, p, image, space)[s])
  {
    ExecHands(procs, tasks, owner, c, p, image, space);
  }

  lemma OwnLedger(procs: Procs, released: seq<nat>, tasks: Tasks, owner: map<nat, Holder>, c: nat, task: Task)
    requires Ledger(procs, released, tasks, owner) && c in tasks && Held(task.pc) == Held(tasks[c].pc)
    requires task.process == tasks[c].process
    requires tasks[c].process in procs && RunsIn(task, procs[tasks[c].process].space)
    ensures Ledger(procs, released, tasks[c := task], owner)
  {
    var tasks' := tasks[c := task];
    forall t | t in tasks'
      ensures TaskHolds(procs, owner, t, tasks'[t])
    {
      assert TaskHolds(procs, owner, t, tasks[t]);
    }
    forall s | s in owner
      ensures IsHeld(procs, released, tasks', s, owner[s])
    {
      assert IsHeld(procs, released, tasks, s, owner[s]);
    }
  }

  /** A task that holds nothing disappears. */
  lemma GoneLedger(procs: Procs, released: seq<nat>, tasks: Tasks, owner: map<nat, Holder>, t: nat)
    requires Ledger(procs, released, tasks, owner) && t in tasks && Held(tasks[t].pc) == []
    ensures Ledger(procs, released, tasks - {t}, owner)
  {
    var tasks' := tasks - {t};
    forall x | x in tasks'
      ensures TaskHolds(procs, owner, x, tasks'[x])
    {
      assert TaskHolds(procs, owner, x, tasks[x]);
    }
    forall s | s in owner
      ensures IsHeld(procs, released, tasks', s, owner[s])
    {
      assert IsHeld(procs, released, tasks, s, owner[s]);
    }
  }

  // ---- every step ------------------------------------------------------------------------------------------------

  lemma SpawnSpaces(k: Kernel, parent: Option<nat>, space: Option<nat>, k': Kernel)
    requires Base(k) && SpacesOk(k) && Held(Me(k).pc) == AsSeq(space) && (Me(k).pc == User || Me(k).pc.Spawn?)
    requires k' == k.(procs := Created(k.procs, k.nextPid, parent, space, k.nextTask), tasks := k'.tasks,
        owner := k'.owner,
                      nextPid := k.nextPid + 1, nextTask := k.nextTask + 1)
    requires k'.tasks == k.tasks[k.current := Me(k).(pc := User)][k.nextTask := Task(k.nextPid, space, Ready, User)]
    requires k'.owner == if space.Some? then k.owner[space.value := Process(k.nextPid)] else k.owner
    ensures SpacesOk(k')
  {
    forall t | t in k.tasks
      ensures k.tasks[t].process in k.procs
    {
      assert TaskOk(k.procs, t, k.tasks[t]);
    }
    SpawnLedger(k.procs, k.released, k.tasks, k.owner, k.current, parent, space, k.nextPid, k.nextTask,
        Me(k).(pc := User),
                k'.procs, k'.tasks, k'.owner);
    assert TaskHolds(k.procs, k.owner, k.current, Me(k));
    assert space.Some? ==> space.value in Held(Me(k).pc);
  }

  lemma RegisterSpaces(k: Kernel, pc: Pc, k': Kernel)
    requires SpacesOk(k) && k.current in k.tasks && Me(k).pc == User && k' == At(Register(k), pc)
    requires (pc == Spawn(k.nextSpace) || pc == ExecSet(k.nextSpace))
    ensures SpacesOk(k')
  {
    RegisterLedger(k.procs, k.released, k.tasks, k.owner, k.current, k.nextSpace, Me(k).(pc := pc));
  }

  /** The running task's place and state change, with nothing in hand before or after. */
  lemma EmptyHanded(k: Kernel, task: Task, k': Kernel)
    requires SpacesOk(k) && SameSpaces(k.procs, k'.procs) && k'.tasks == k.tasks[k.current := task]
    requires k'.current == k.current
    requires task.process == Me(k).process && task.space == Me(k).space && Held(Me(k).pc) == [] && Held(task.pc) == []
    requires RunsIn(Me(k), Me(k).space) && RunsIn(task, task.space) && !Me(k).pc.ExecBind? && !Me(k).pc.ExecActivate?
    requires !task.pc.ExecBind? && !task.pc.ExecActivate?
    requires k'.released == k.released && k'.owner == k.owner && k'.freed == k.freed && k'.nextSpace == k.nextSpace
    requires k'.active == k.active
    ensures SpacesOk(k')
  {
    forall t | t in k.tasks
      ensures Alike(k.tasks[t], k'.tasks[t])
    {
    }
    PlainStep(k, k');
  }

  lemma ChosenSpaces(k: Kernel, choice: Choice, k': Kernel)
    requires Base(k) && SpacesOk(k) && Fixed(k) && Me(k).pc == User && k' == Chosen(k, choice)
    ensures SpacesOk(k')
  {
    match choice
    case StartSpawn => RegisterSpaces(k, Spawn(k.nextSpace), k');
    case SpawnKernelTask => SpawnSpaces(k, None, None, k');
    case StartWait(target, noHang) => EmptyHanded(k, Me(k').(pc := WaitCheck(target, noHang)), k');
    case StartExec => RegisterSpaces(k, ExecSet(k.nextSpace), k');
    case StartExit(status) => EmptyHanded(k, Me(k'), k');
  }

  lemma AtSpaces(k: Kernel, pc: Pc, k': Kernel)
    requires SpacesOk(k) && k.current in k.tasks && k' == At(k, pc) && Idle(Me(k).pc) && Idle(pc)
    ensures SpacesOk(k')
  {
    EmptyHanded(k, Me(k).(pc := pc), k');
  }

  predicate Idle(pc: Pc) {
    Held(pc) == [] && !pc.ExecBind? && !pc.ExecActivate?
  }

  /** Looking, and falling asleep. */
  lemma WaitSpaces(k: Kernel, to: nat, k': Kernel)
    requires SpacesOk(k) && Fixed(k) && to in k.tasks && WaitPc(Me(k).pc) && k' == WaitActed(k, to)
    requires Me(k).pc.WaitLoop? || Me(k).pc == ReaperWait ==> to != k.current
    ensures SpacesOk(k')
  {
    match Me(k).pc
    case WaitCheck(target, noHang) => AtSpaces(k, AfterLook(Look(k.procs, Me(k).process, target), target, noHang), k');
    case WaitLoop(target) =>
      if Look(k.procs, Me(k).process, target) != NotYet {
        AtSpaces(k, WaitAgain(target), k');
      } else {
        SleepSpaces(k, k');
      }
    case WaitAgain(target) => AtSpaces(k, AfterLook(Look(k.procs, Me(k).process, target), target, true), k');
    case ReaperWait =>
      if k.exitQueue != [] {
        AtSpaces(k, Reap, k');
      } else {
        SleepSpaces(k, k');
      }
  }

  lemma SleepSpaces(k: Kernel, k': Kernel)
    requires SpacesOk(k) && k'.procs == k.procs && k'.tasks == k.tasks[k.current := Me(k).(state := Blocked)]
    requires k'.current in k'.tasks
    requires k'.released == k.released && k'.owner == k.owner && k'.freed == k.freed && k'.nextSpace == k.nextSpace
    requires k'.active == k'.tasks[k'.current].space
    ensures SpacesOk(k')
  {
    forall t | t in k.tasks
      ensures Alike(k.tasks[t], k'.tasks[t])
    {
    }
    PlainSwitch(k, k');
  }

  /** Releasing: the space is registered, was not freed before, and is not the active one. */
  lemma ReleaseIsDue(k: Kernel, s: nat)
    requires Base(k) && SpacesOk(k) && (Me(k).pc.FreeSpaces? || Me(k).pc.ExecFree?) && s in Held(Me(k).pc)
    ensures s in k.owner && s !in k.freed && k.active != Some(s)
    ensures forall t :: t in k.tasks ==> k.tasks[t].space != Some(s)
    ensures forall p :: p in k.procs ==> k.procs[p].space != Some(s)
  {
    assert TaskHolds(k.procs, k.owner, k.current, Me(k));
    forall p | p in k.procs
      ensures k.procs[p].space != Some(s)
    {
      assert ProcHolds(k.procs, k.owner, p);
      InAsSeq(k.procs[p].space, s);
    }
    forall t | t in k.tasks
      ensures k.tasks[t].space != Some(s)
    {
      assert TaskHolds(k.procs, k.owner, t, k.tasks[t]) && TaskOk(k.procs, t, k.tasks[t]);
      InAsSeq(k.tasks[t].space, s);
    }
  }

  lemma FreeSpacesStep(k: Kernel, k': Kernel)
    requires Base(k) && SpacesOk(k) && Me(k).pc.FreeSpaces? && k' == DoFreeSpaces(k, Me(k).pc.spaces)
    ensures SpacesOk(k')
  {
    var spaces := Me(k).pc.spaces;
    if spaces == [] {
      EmptyHanded(k, Me(k'), k');
    } else {
      ReleaseIsDue(k, spaces[0]);
      FreeLedger(k.procs, k.released, k.tasks, k.owner, k.current, Me(k).(pc := FreeSpaces(spaces[1..])));
    }
  }

  lemma CollectSpaces(k: Kernel, c: nat, k': Kernel)
    requires Base(k) && SpacesOk(k) && Me(k).pc == Collect(c) && k' == DoCollect(k, c)
    ensures SpacesOk(k')
  {
    if CanCollect(k.procs, Me(k).process, c) {
      var d := k.(procs := Disowned(k.procs, Me(k).process, c));
      DisownKeeps(k, c, d);
      EmptyHanded(k, Me(k), d);
      var r := DoReap(d, c);
      ReapSpaces(d, c, r);
      AtSpaces(r, CollectReap(c, k.procs[c].status.value), k');
    } else {
      AtSpaces(k, User, k');
    }
  }

  lemma CollectReapSpaces(k: Kernel, c: nat, k': Kernel)
    requires Base(k) && SpacesOk(k) && Me(k).pc.CollectReap? && Me(k).pc.child == c
    requires k' == At(DoReap(k, c), TakeSpaces)
    ensures SpacesOk(k')
  {
    var r := DoReap(k, c);
    ReapSpaces(k, c, r);
    EmptyHanded(r, Me(k'), k');
  }

  lemma TakeSpacesStep(k: Kernel, k': Kernel)
    requires Base(k) && SpacesOk(k) && Me(k).pc == TakeSpaces && k' == DoTakeSpaces(k)
    ensures SpacesOk(k')
  {
    TakeLedger(k, k');
    assert k'.owner.Keys == k.owner.Keys;
  }

  lemma FreeStepSpaces(k: Kernel, k': Kernel)
    requires Base(k) && SpacesOk(k) && Fixed(k) && FreePc(Me(k).pc) && k' == FreeActed(k)
    ensures SpacesOk(k')
  {
    match Me(k).pc
    case Collect(c) => CollectSpaces(k, c, k');
    case CollectReap(c, _) => CollectReapSpaces(k, c, k');
    case TakeSpaces => TakeSpacesStep(k, k');
    case FreeSpaces(_) => FreeSpacesStep(k, k');
  }

  lemma ExecStepSpaces(k: Kernel, k': Kernel)
    requires Base(k) && SpacesOk(k) && Fixed(k) && ExecPc(Me(k).pc) && k' == ExecActed(k)
    ensures SpacesOk(k')
  {
    assert TaskHolds(k.procs, k.owner, k.current, Me(k)) && TaskOk(k.procs, k.current, Me(k));
    match Me(k).pc
    case ExecSet(image) => ExecSetSpaces(k, image, k');
    case ExecBind(image, previous) =>
      OwnLedger(k.procs, k.released, k.tasks, k.owner, k.current, Me(k').(pc := ExecActivate(image, previous)));
    case ExecActivate(image, previous) =>
      OwnLedger(k.procs, k.released, k.tasks, k.owner, k.current, Me(k').(pc := ExecFree(previous)));
    case ExecFree(previous) => ExecFreeSpaces(k, previous, k');
  }

  lemma ExecSetSpaces(k: Kernel, image: nat, k': Kernel)
    requires Base(k) && SpacesOk(k) && Fixed(k) && Me(k).pc == ExecSet(image) && k' == DoExecSet(k, image)
    ensures SpacesOk(k')
  {
    ExecSetLedger(k, image, k');
    var p := Me(k).process;
    assert TaskHolds(k.procs, k.owner, k.current, Me(k)) && TaskOk(k.procs, k.current, Me(k)) && ProcHolds(k.procs,
        k.owner, p);
    assert image in Held(Me(k).pc) && (Me(k).space.Some? ==> Me(k).space.value in AsSeq(k.procs[p].space));
    assert k'.owner.Keys == k.owner.Keys;
  }

  lemma ExecFreeSpaces(k: Kernel, previous: Option<nat>, k': Kernel)
    requires Base(k) && SpacesOk(k) && Me(k).pc == ExecFree(previous) && k' == DoExecFree(k, previous)
    ensures SpacesOk(k')
  {
    if previous.Some? {
      assert Held(Me(k).pc) == [previous.value];
      ReleaseIsDue(k, previous.value);
      FreeLedger(k.procs, k.released, k.tasks, k.owner, k.current, Me(k).(pc := User));
    } else {
      EmptyHanded(k, Me(k'), k');
    }
  }

  lemma WakeSpaces(k: Kernel, pc: Pc, k': Kernel)
    requires Base(k) && SpacesOk(k) && k' == DoWakeAll(k, pc)
    requires (Me(k).pc.WakeWaiters? && pc == WakeReaper(Me(k).pc.status)) || (Me(k).pc == ReaperWake && pc == Reap)
    ensures SpacesOk(k')
  {
    assert k'.tasks == Woken(k.tasks, k.childWait)[k.current := Me(k).(pc := pc)] by {
      WakeAllKeeps(k, pc, k');
    }
    WokenHands(k.tasks, k.childWait, k.current, pc);
    PlainStep(k, k');
  }

  lemma WokenHands(tasks: Tasks, queue: seq<nat>, c: nat, pc: Pc)
    requires c in tasks && Held(tasks[c].pc) == [] && Held(pc) == []
    requires !tasks[c].pc.ExecBind? && !tasks[c].pc.ExecActivate? && !pc.ExecBind? && !pc.ExecActivate?
    ensures SameHands(tasks, Woken(tasks, queue)[c := tasks[c].(pc := pc)])
  {
    var tasks' := Woken(tasks, queue)[c := tasks[c].(pc := pc)];
    forall t | t in tasks
      ensures Alike(tasks[t], tasks'[t])
    {
    }
  }

  lemma ReapTaskSpaces(k: Kernel, k': Kernel)
    requires Base(k) && SpacesOk(k) && Me(k).pc == Reap && k' == DoReapTask(k)
    ensures SpacesOk(k')
  {
    assert TaskOk(k.procs, k.current, Me(k));
    if k.exitQueue == [] {
      EmptyHanded(k, Me(k'), k');
    } else {
      var t := k.exitQueue[0];
      assert t in k.exitQueue && TaskOk(k.procs, t, k.tasks[t]);
      var moved := At(k, Retire(t, k.tasks[t].process));
      EmptyHanded(k, Me(moved), moved);
      GoneLedger(moved.procs, moved.released, moved.tasks, moved.owner, t);
    }
  }

  lemma RetireSpaces(k: Kernel, t: nat, p: nat, k': Kernel)
    requires Base(k) && SpacesOk(k) && k.current == REAPER && Me(k).pc == Retire(t, p) && k' == DoRetire(k, t, p)
    ensures SpacesOk(k')
  {
    var d := At(k.(procs := ThreadDropped(k.procs, p, t)), TakeSpaces);
    DropKeeps(k, t, p, d);
    EmptyHanded(k, Me(d), d);
    ReapSpaces(d, p, k');
  }

  lemma ReapStepSpaces(k: Kernel, k': Kernel)
    requires Base(k) && SpacesOk(k) && Fixed(k) && ReapPc(Me(k).pc) && k' == ReapActed(k)
    ensures SpacesOk(k')
  {
    assert TaskOk(k.procs, k.current, Me(k));
    match Me(k).pc
    case Reap => ReapTaskSpaces(k, k');
    case Retire(t, p) => RetireSpaces(k, t, p, k');
    case ReaperWake => WakeSpaces(k, Reap, k');
  }

  lemma WakeReaperSpaces(k: Kernel, status: int, k': Kernel)
    requires Base(k) && SpacesOk(k) && Me(k).pc == WakeReaper(status) && k' == DoWakeReaper(k, status)
    ensures SpacesOk(k')
  {
    forall t | t in k.tasks
      ensures Alike(k.tasks[t], k'.tasks[t])
    {
    }
    PlainStep(k, k');
  }

  lemma ReparentSpaces(k: Kernel, status: int, k': Kernel)
    requires SpacesOk(k) && k.current in k.tasks && Me(k).pc == Reparent(status)
    requires k' == At(k.(procs := Reparented(k.procs, Me(k).process, INIT_PID)), WakeWaiters(status))
    ensures SpacesOk(k')
  {
    EmptyHanded(k, Me(k).(pc := WakeWaiters(status)), k');
  }

  lemma SetStatusSpaces(k: Kernel, status: int, k': Kernel)
    requires SpacesOk(k) && k.current in k.tasks && Me(k).pc == SetStatus(status) && k' == DoSetStatus(k, status)
    ensures SpacesOk(k')
  {
    EmptyHanded(k, Me(k).(pc := Leave), k');
  }

  lemma ExitStepSpaces(k: Kernel, to: nat, k': Kernel)
    requires Base(k) && SpacesOk(k) && Fixed(k) && to in k.tasks && ExitPc(Me(k).pc) && k' == ExitActed(k, to)
    ensures SpacesOk(k')
  {
    match Me(k).pc
    case Reparent(status) => ReparentSpaces(k, status, k');
    case WakeWaiters(status) => WakeSpaces(k, WakeReaper(status), k');
    case WakeReaper(status) => WakeReaperSpaces(k, status, k');
    case SetStatus(status) => SetStatusSpaces(k, status, k');
    case Leave => SwitchSpaces(k, to, k');
  }

  lemma SwitchSpaces(k: Kernel, to: nat, k': Kernel)
    requires SpacesOk(k) && to in k.tasks && k' == Switched(k, to)
    ensures SpacesOk(k')
  {
  }

  lemma SpacesStep(k: Kernel, e: Event, k': Kernel)
    requires Base(k) && SpacesOk(k) && Enabled(k, e) && k' == Next(k, e)
    ensures SpacesOk(k')
  {
    assert TaskOk(k.procs, k.current, Me(k));
    var pc := Me(k).pc;
    if e.Switch? {
      SwitchSpaces(k, e.to, k');
    } else if pc == User {
      ChosenSpaces(k, e.choice, k');
    } else if pc.Spawn? {
      SpawnSpaces(k, Some(Me(k).process), Some(pc.image), k');
    } else if WaitPc(pc) {
      WaitSpaces(k, e.to, k');
    } else if ExecPc(pc) {
      ExecStepSpaces(k, k');
    } else if FreePc(pc) {
      FreeStepSpaces(k, k');
    } else if ReapPc(pc) {
      ReapStepSpaces(k, k');
    } else {
      ExitStepSpaces(k, e.to, k');
    }
  }

  // ---- every run ---------------------------------------------------------------------------------------------------

  lemma {:induction false} RunKeepsSpaces(k: Kernel, events: seq<Event>, k': Kernel)
    requires Base(k) && SpacesOk(k) && Reaches(k, events, k')
    ensures Base(k') && SpacesOk(k')
    decreases |events|
  {
    if events != [] {
      var next := Next(k, events[0]);
      BaseStep(k, events[0], next);
      SpacesStep(k, events[0], next);
      RunKeepsSpaces(next, events[1..], k');
    }
  }

  predicate FreesAtMost(k: Kernel, k': Kernel)
    requires k.current in k.tasks
  {
    || k'.freed == k.freed
    || ((Me(k).pc.FreeSpaces? || Me(k).pc.ExecFree?) && Held(Me(k).pc) != [] &&
        k'.freed == k.freed + {Held(Me(k).pc)[0]})
  }

  lemma OthersFreeNothing(k: Kernel, choice: Choice, to: nat)
    requires Fixed(k) && to in k.tasks
    ensures Chosen(k, choice).freed == k.freed
    ensures WaitPc(Me(k).pc) ==> WaitActed(k, to).freed == k.freed
    ensures ReapPc(Me(k).pc) ==> ReapActed(k).freed == k.freed
    ensures ExitPc(Me(k).pc) ==> ExitActed(k, to).freed == k.freed
  {
  }

  lemma HolderFreesOne(k: Kernel)
    requires Fixed(k)
    ensures ExecPc(Me(k).pc) ==> FreesAtMost(k, ExecActed(k))
    ensures FreePc(Me(k).pc) ==> FreesAtMost(k, FreeActed(k))
  {
  }

  /** A step frees nothing but the first space the running task holds in a release loop. */
  lemma FreedBy(k: Kernel, e: Event)
    requires Enabled(k, e)
    ensures FreesAtMost(k, Next(k, e))
  {
    if e.Act? {
      OthersFreeNothing(k, e.choice, e.to);
      HolderFreesOne(k);
    }
  }

  /** In every run from boot, a space is released only by the `exec` that left it or after its
      process was reaped; at that moment it is registered, was not released before, is not the
      active space and belongs to no process and no task. Whatever was ever registered is still
      held by exactly one of these, or was released. */
  lemma ReleasedExactlyOnce(first: nat, events: seq<Event>, k: Kernel, e: Event, s: nat)
    requires first == IDLE || first == REAPER || first == 2
    requires Reaches(Boot(first), events, k) && Enabled(k, e)
    ensures s < k.nextSpace ==> (s in k.owner <==> s !in k.freed)
    ensures s in k.owner ==> IsHeld(k.procs, k.released, k.tasks, s, k.owner[s])
    ensures s in Next(k, e).freed && s !in k.freed ==>
      && (Me(k).pc.FreeSpaces? || Me(k).pc.ExecFree?) && s in k.owner && k.active != Some(s)
      && (forall t :: t in k.tasks ==> k.tasks[t].space != Some(s))
      && forall p :: p in k.procs ==> k.procs[p].space != Some(s)
  {
    assert Base(k) && SpacesOk(k) by {
      BootBase(first);
      BootSpaces(first);
      RunKeepsSpaces(Boot(first), events, k);
    }
    FreedBy(k, e);
    if s in Next(k, e).freed && s !in k.freed {
      ReleaseIsDue(k, s);
    }
  }

  lemma BootSpaces(first: nat)
    requires first == IDLE || first == REAPER || first == 2
    ensures SpacesOk(Boot(first))
  {
  }
}
