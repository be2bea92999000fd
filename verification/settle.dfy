/** The control and settle protocol (kmod/task.c, kmod/tick.c, user/user.c) as interleaved steps of
    one controller, the test CPUs and the kernel underneath them.

    CPU 0 is the controller's; it runs a task only while that task is being created. The scheduler
    is nondeterministic: which queued task a CPU picks, where a woken task goes and whether a wakeup
    preempts are labels of a step, free within what the kernel guarantees. A CPU changes its current
    task only on a reschedule or when that task sleeps, yields or exits, because the kernel is built
    without preemption. */
module Settle {
  import opened Control

  /** Where a task is in its loop. Exit(a) is the way back to user mode, where a pending reschedule
      or signal is acted on, and User(a) is user mode, each about to do a (NONE: the next read). */
  datatype Pc = Exit(a: Act) | User(a: Act) | Take | IrqOff | Halted | AfterHalt | Asleep(on: Act) | Dead

  datatype Run = Off | Waking | Queued

  /** put and taken are history: every action ever queued, and every one its loop has taken. */
  datatype Task = Task(pc: Pc, run: Run, cpu: nat, sig: bool, settled: bool,
                       q: seq<Act>, put: seq<Act>, taken: seq<Act>)

  /** curr is a task or -1, the idle task; irq is an interrupt sent and not yet taken. */
  datatype Cpu = Cpu(curr: int, resched: bool, irq: bool)

  /** What the controller is doing: between steps, waiting for a new task to park, between queueing
      and looking at the halt, waiting for its interrupt to be taken, or polling CPU c. */
  datatype Ctrl = Ready | Creating(t: nat) | Posted(t: nat) | Kicking(c: nat) | Settling(c: nat)

  datatype State = State(tasks: seq<Task>, cpus: seq<Cpu>, tokens: nat, ctrl: Ctrl)

  datatype Step =
    // the task running on CPU c
    | Leave(c: nat) | Handle(c: nat) | Call(c: nat) | CallSleep(c: nat, pick: int)
    | CallWake(c: nat, reader: nat, home: nat)
    | Read(c: nat) | ReadPark(c: nat, pick: int) | Check(c: nat) | Resume(c: nat)
    // the kernel on CPU c
    | Resched(c: nat, pick: int) | Irq(c: nat) | Activate(c: nat, t: nat, preempt: bool)
    // the controller
    | Create | Created(home: nat) | Put(t: nat, act: Act) | Kick | Kicked
    | Signal(t: nat, home: nat) | Tick(c: nat, preempt: bool) | Migrate(t: nat, home: nat, preempt: bool)
    | SettleStart | Poll | SettleDone

  /** Steps that no controller action is needed for. */
  predicate Internal(step: Step) {
    step.Leave? || step.Handle? || step.Call? || step.CallSleep? || step.CallWake? || step.Read? ||
    step.ReadPark? || step.Check? || step.Resume? || step.Resched? || step.Irq? || step.Activate?
  }

  // ---- the kernel's side ----

  predicate TaskId(s: State, t: int) { 0 <= t < |s.tasks| }

  predicate TestCpu(s: State, c: int) { 1 <= c < |s.cpus| }

  predicate Running(s: State, c: int) {
    0 <= c < |s.cpus| && TaskId(s, s.cpus[c].curr)
  }

  function Curr(s: State, c: int): Task
    requires Running(s, c)
  {
    s.tasks[s.cpus[c].curr]
  }

  predicate QueuedOn(s: State, t: int, c: int) {
    TaskId(s, t) && s.tasks[t].run == Queued && s.tasks[t].cpu == c
  }

  ghost predicate Empty(s: State, c: int) { forall t :: !QueuedOn(s, t, c) }

  /** What the scheduler may run on c next: one of its own tasks; or, with none, idle or a queued
      task pulled from another test CPU that is not running it (newidle balance). */
  ghost predicate ValidPick(s: State, c: int, pick: int) {
    if !Empty(s, c) then QueuedOn(s, pick, c)
    else pick == -1 ||
         (TestCpu(s, c) && TaskId(s, pick) && s.tasks[pick].run == Queued && TestCpu(s, s.tasks[pick].cpu) &&
          s.cpus[s.tasks[pick].cpu].curr != pick)
  }

  function SetTask(s: State, t: int, task: Task): State
    requires TaskId(s, t)
  {
    s.(tasks := s.tasks[t := task])
  }

  function SetCpu(s: State, c: int, cpu: Cpu): State
    requires 0 <= c < |s.cpus|
  {
    s.(cpus := s.cpus[c := cpu])
  }

  /** schedule(): c runs pick, and the reschedule asked for, if any, has happened. */
  function Switch(s: State, c: nat, pick: int): State
    requires c < |s.cpus| && (pick == -1 || TaskId(s, pick))
  {
    var s1 := SetCpu(s, c, s.cpus[c].(curr := pick, resched := false));
    if pick == -1 then s1 else SetTask(s1, pick, s.tasks[pick].(cpu := c))
  }

  /** An interrupt ends a halt, and sends user mode through the exit path again. */
  function Interrupted(pc: Pc): Pc {
    match pc
    case Halted => AfterHalt
    case User(a) => Exit(a)
    case _ => pc
  }

  function Interrupt(s: State, c: nat): State
    requires c < |s.cpus|
  {
    if Running(s, c) then SetTask(s, s.cpus[c].curr, Curr(s, c).(pc := Interrupted(Curr(s, c).pc))) else s
  }

  predicate IrqsOn(s: State, c: int) {
    0 <= c < |s.cpus| && (Running(s, c) ==> Curr(s, c).pc != IrqOff)
  }

  predicate At(s: State, c: nat, pc: Pc) { Running(s, c) && Curr(s, c).pc == pc }

  /** The running task goes to sleep or dies: off the queue, before the switch. */
  function Dequeue(s: State, c: nat, pc: Pc): State
    requires Running(s, c)
  {
    SetTask(s, s.cpus[c].curr, Curr(s, c).(pc := pc, run := Off))
  }

  function Jump(s: State, c: nat, pc: Pc): State
    requires Running(s, c)
  {
    SetTask(s, s.cpus[c].curr, Curr(s, c).(pc := pc))
  }

  /** A wakeup: t is on its way to home's queue and will find its system call returned. */
  function Wake(s: State, t: nat, home: nat): State
    requires TaskId(s, t)
  {
    SetTask(s, t, s.tasks[t].(pc := Exit(NONE), run := Waking, cpu := home))
  }

  predicate Sleeps(s: State, c: nat) {
    Running(s, c) && Curr(s, c).pc.User? &&
    match Curr(s, c).pc.a
    case EXIT => true
    case PAUSE => !Curr(s, c).sig
    case BLOCK => !Curr(s, c).sig
    case CHAN_READ => s.tokens == 0 && !Curr(s, c).sig
    case _ => false
  }

  predicate ReaderAsleep(s: State, t: int) { TaskId(s, t) && s.tasks[t].pc == Asleep(CHAN_READ) }

  // ---- the steps ----

  /** The state in which a step that gives up the CPU picks the next task. */
  function BeforeSwitch(s: State, step: Step): State
    requires step.CallSleep? || step.ReadPark? || step.Resched?
    requires step.Resched? || Running(s, step.c)
  {
    match step
    case CallSleep(c, _) =>
      if Sleeps(s, c) then
        Dequeue(s, c, if Curr(s, c).pc.a == EXIT then Dead else Asleep(Curr(s, c).pc.a))
      else Jump(s, c, Exit(NONE))
    case ReadPark(c, _) =>
      var t := s.cpus[c].curr;
      Dequeue(SetTask(s, t, Taken(s.tasks[t])), c, Asleep(PARK))
    case _ => s
  }

  /** kstep_ctrl_take, by the task for itself. */
  function Taken(x: Task): Task {
    x.(q := Behind(x.q), taken := if x.q == [] then x.taken else x.taken + [x.q[0]])
  }

  ghost predicate Enabled(s: State, step: Step) {
    match step
    case Leave(c) => Running(s, c) && Curr(s, c).pc.Exit? && !s.cpus[c].resched && !Curr(s, c).sig
    case Handle(c) => Running(s, c) && Curr(s, c).pc.Exit? && Curr(s, c).sig
    case Call(c) =>
      Running(s, c) && Curr(s, c).pc.User? && !Sleeps(s, c) && Curr(s, c).pc.a !in {YIELD, PARK} &&
      (Curr(s, c).pc.a == CHAN_WRITE ==> forall t :: !ReaderAsleep(s, t))
    case CallSleep(c, pick) =>
      Running(s, c) && Curr(s, c).pc.User? && (Sleeps(s, c) || Curr(s, c).pc.a == YIELD) &&
      ValidPick(BeforeSwitch(s, step), c, pick)
    case CallWake(c, reader, home) =>
      At(s, c, User(CHAN_WRITE)) && ReaderAsleep(s, reader) && TestCpu(s, home)
    case Read(c) => At(s, c, Take) && (Front(Curr(s, c).q) == PARK ==> Curr(s, c).sig)
    case ReadPark(c, pick) =>
      At(s, c, Take) && Front(Curr(s, c).q) == PARK && !Curr(s, c).sig &&
      ValidPick(BeforeSwitch(s, step), c, pick)
    case Check(c) => At(s, c, IrqOff)
    case Resume(c) => At(s, c, AfterHalt)
    case Resched(c, pick) =>
      c < |s.cpus| && s.cpus[c].resched && (Running(s, c) ==> Curr(s, c).pc.Exit?) && ValidPick(s, c, pick)
    case Irq(c) => IrqsOn(s, c) && s.cpus[c].irq
    case Activate(c, t, _) => IrqsOn(s, c) && TaskId(s, t) && s.tasks[t].run == Waking && s.tasks[t].cpu == c
    case Create => s.ctrl == Ready && |s.cpus| > 0 && s.cpus[0].curr == -1
    case Created(home) => s.ctrl.Creating? && TaskId(s, s.ctrl.t) && s.tasks[s.ctrl.t].pc == Asleep(PARK) && TestCpu(s, home)
    case Put(t, act) => s.ctrl == Ready && TaskId(s, t) && act !in {NONE, PARK} && |s.tasks[t].q| < QUEUE
    case Kick => s.ctrl.Posted? && TaskId(s, s.ctrl.t) && s.tasks[s.ctrl.t].cpu < |s.cpus|
    case Kicked => s.ctrl.Kicking? && s.ctrl.c < |s.cpus| && !s.cpus[s.ctrl.c].irq
    case Signal(t, home) => s.ctrl == Ready && TaskId(s, t) && s.tasks[t].pc != Dead && TestCpu(s, home) && s.tasks[t].cpu < |s.cpus|
    case Tick(c, _) => s.ctrl == Ready && TestCpu(s, c) && IrqsOn(s, c)
    case Migrate(t, home, _) =>
      s.ctrl == Ready && TaskId(s, t) && s.tasks[t].run == Queued && TestCpu(s, s.tasks[t].cpu) && TestCpu(s, home) &&
      s.cpus[s.tasks[t].cpu].curr != t
    case SettleStart => s.ctrl == Ready
    case Poll => s.ctrl.Settling? && CpuSettled(s, s.ctrl.c)
    case SettleDone => s.ctrl.Settling? && s.ctrl.c >= |s.cpus|
  }

  ghost function Apply(s: State, step: Step): State
    requires Enabled(s, step)
  {
    match step
    case Leave(c) => Jump(s, c, User(Curr(s, c).pc.a))
    case Handle(c) => SetTask(s, s.cpus[c].curr, Curr(s, c).(sig := false))
    case Call(c) =>
      var a := Curr(s, c).pc.a;
      if a == NONE then Jump(s, c, Take)
      else if a == CHAN_READ && s.tokens > 0 then Jump(s, c, Exit(NONE)).(tokens := s.tokens - 1)
      else if a == CHAN_WRITE then Jump(s, c, Exit(NONE)).(tokens := s.tokens + 1)
      else Jump(s, c, Exit(NONE))
    case CallSleep(c, pick) => Switch(BeforeSwitch(s, step), c, pick)
    case CallWake(c, reader, home) => Wake(Jump(s, c, Exit(NONE)), reader, home)
    case Read(c) =>
      var t, a := s.cpus[c].curr, Front(Curr(s, c).q);
      SetTask(s, t, Taken(s.tasks[t]).(pc := if a == NONE then IrqOff else if a == PARK then Exit(NONE) else Exit(a)))
    case ReadPark(c, pick) => Switch(BeforeSwitch(s, step), c, pick)
    case Check(c) =>
      if s.cpus[c].resched || Curr(s, c).sig then Jump(s, c, Exit(NONE))
      else SetTask(s, s.cpus[c].curr, Curr(s, c).(pc := Halted, settled := true))
    case Resume(c) => SetTask(s, s.cpus[c].curr, Curr(s, c).(pc := Exit(NONE), settled := false))
    case Resched(c, pick) => Switch(s, c, pick)
    case Irq(c) => SetCpu(Interrupt(s, c), c, s.cpus[c].(irq := false))
    case Activate(c, t, preempt) =>
      var s1 := SetCpu(Interrupt(s, c), c, s.cpus[c].(resched := s.cpus[c].resched || preempt || s.cpus[c].curr == -1));
      SetTask(s1, t, s.tasks[t].(run := Queued))
    case Create =>
      var t := Task(Exit(NONE), Queued, 0, false, false, [PARK], [PARK], []);
      SetCpu(s, 0, s.cpus[0].(curr := |s.tasks|, resched := false)).(tasks := s.tasks + [t], ctrl := Creating(|s.tasks|))
    case Created(home) => SetTask(s, s.ctrl.t, s.tasks[s.ctrl.t].(cpu := home)).(ctrl := Ready)
    case Put(t, act) =>
      var x := s.tasks[t];
      SetTask(s.(ctrl := Posted(t)), t, x.(q := x.q + [act], put := x.put + [act]))
    case Kick =>
      var x := s.tasks[s.ctrl.t];
      if x.settled then SetCpu(s, x.cpu, s.cpus[x.cpu].(irq := true)).(ctrl := Kicking(x.cpu)) else s.(ctrl := Settling(1))
    case Kicked => s.(ctrl := Settling(1))
    case Signal(t, home) =>
      var x := s.tasks[t];
      var s1 :=
        if x.pc.Asleep? then Wake(s, t, home)
        else if s.cpus[x.cpu].curr == t then SetCpu(s, x.cpu, s.cpus[x.cpu].(irq := true))
        else s;
      SetTask(s1, t, s1.tasks[t].(sig := true)).(ctrl := Settling(1))
    case Tick(c, preempt) =>
      var s1 := Interrupt(s, c);
      SetCpu(s1, c, s.cpus[c].(resched := s.cpus[c].resched || (preempt && s.cpus[c].curr != -1)))
    case Migrate(t, home, preempt) =>
      var s1 := if preempt || s.cpus[home].curr == -1 then SetCpu(s, home, s.cpus[home].(resched := true, irq := true)) else s;
      SetTask(s1, t, s.tasks[t].(cpu := home))
    case SettleStart => s.(ctrl := Settling(1))
    case Poll => s.(ctrl := Settling(s.ctrl.c + 1))
    case SettleDone => s.(ctrl := Ready)
  }

  // ---- what the controller looks at ----

  /** kstep_task_settled */
  predicate TaskSettled(x: Task) { x.settled && x.q == [] && !x.sig }

  /** kstep_cpu_settled; no task waking onto c is what rq->ttwu_pending says. */
  ghost predicate CpuSettled(s: State, c: int) {
    && 0 <= c < |s.cpus|
    && !s.cpus[c].resched
    && (forall t :: TaskId(s, t) && s.tasks[t].cpu == c ==> s.tasks[t].run != Waking)
    && if s.cpus[c].curr == -1 then Empty(s, c) else Running(s, c) && TaskSettled(Curr(s, c))
  }

  // ---- runs ----

  /** Every step enabled where it is taken. */
  ghost predicate RunFrom(s: State, steps: seq<Step>)
    decreases |steps|
  {
    steps == [] || (Enabled(s, steps[0]) && RunFrom(Apply(s, steps[0]), steps[1..]))
  }

  ghost function After(s: State, steps: seq<Step>): State
    requires RunFrom(s, steps)
    decreases |steps|
  {
    if steps == [] then s else After(Apply(s, steps[0]), steps[1..])
  }

  lemma Then(s: State, step: Step, rest: seq<Step>)
    requires Enabled(s, step) && RunFrom(Apply(s, step), rest)
    ensures RunFrom(s, [step] + rest) && After(s, [step] + rest) == After(Apply(s, step), rest)
  {
    assert ([step] + rest)[1..] == rest;
  }

  /** t has found its queue empty and not yet halted, and nothing else will keep it from halting. */
  predicate InWindow(s: State, t: int) {
    TaskId(s, t) && s.tasks[t].pc == IrqOff && !s.tasks[t].sig && s.tasks[t].cpu < |s.cpus| &&
    !s.cpus[s.tasks[t].cpu].resched && !s.cpus[s.tasks[t].cpu].irq
  }

  /** No action is put in its target's window: the assumption behind "the two ends never run at once". */
  ghost predicate Disciplined(s: State, steps: seq<Step>)
    requires RunFrom(s, steps)
    decreases |steps|
  {
    steps == [] ||
    ((steps[0].Put? ==> !InWindow(s, steps[0].t)) && Disciplined(Apply(s, steps[0]), steps[1..]))
  }

  /** A machine of n CPUs before any task. */
  function Boot(n: nat): State {
    State([], seq(n, _ => Cpu(-1, false, false)), 0, Ready)
  }

  // ---- the invariant ----

  /** Halted with something to do, and nobody left who owes it an interrupt. */
  predicate Lost(s: State, t: int) {
    TaskId(s, t) && s.tasks[t].pc == Halted && s.tasks[t].cpu < |s.cpus| &&
    (s.tasks[t].q != [] || s.tasks[t].sig || s.cpus[s.tasks[t].cpu].resched) &&
    !s.cpus[s.tasks[t].cpu].irq && s.ctrl != Posted(t)
  }

  predicate HistoryOk(x: Task) {
    && x.put == x.taken + x.q && |x.q| <= QUEUE
    && x.put != [] && x.put[0] == PARK
    && forall i :: 1 <= i < |x.put| ==> x.put[i] !in {NONE, PARK}
  }

  /** What holds of a task given its CPU, whether it is running there, and whether the controller
      has yet to look at its halt. */
  predicate Local(x: Task, cpu: Cpu, running: bool, posted: bool) {
    && (x.run == Off <==> x.pc.Asleep? || x.pc == Dead)
    && (x.run == Waking ==> x.pc == Exit(NONE))
    && (!running ==> x.pc.Exit? || x.run == Off)
    && (x.settled <==> x.pc == Halted || x.pc == AfterHalt)
    && (x.pc.Exit? || x.pc.User? ==> x.pc.a != PARK)
    && (x.pc == IrqOff && x.q != [] ==> x.sig || cpu.resched || cpu.irq)
    && (x.pc == Halted && (x.sig || cpu.resched) ==> cpu.irq)
    && (x.pc == Halted && x.q != [] ==> cpu.irq || posted)
  }

  predicate TaskOk(s: State, t: int)
    requires TaskId(s, t)
  {
    var x := s.tasks[t];
    x.cpu < |s.cpus| && HistoryOk(x) && Local(x, s.cpus[x.cpu], s.cpus[x.cpu].curr == t, s.ctrl == Posted(t))
  }

  ghost predicate CpuOk(s: State, c: int)
    requires 0 <= c < |s.cpus|
  {
    && (s.cpus[c].curr == -1 || QueuedOn(s, s.cpus[c].curr, c))
    && (s.cpus[c].curr == -1 ==> s.cpus[c].resched || Empty(s, c))
  }

  predicate CtrlOk(s: State) {
    && (s.ctrl.Creating? || s.ctrl.Posted? ==> TaskId(s, s.ctrl.t))
    && (s.ctrl.Kicking? ==> s.ctrl.c < |s.cpus|)
    && (s.ctrl.Settling? ==> 1 <= s.ctrl.c)
  }

  ghost predicate Inv(s: State) {
    && (forall t :: TaskId(s, t) ==> TaskOk(s, t))
    && (forall c :: 0 <= c < |s.cpus| ==> CpuOk(s, c))
    && CtrlOk(s)
  }

  // ---- the four ways a step touches the state, each kept under a condition on what it writes ----

  /** The running task changes itself. */
  lemma OwnStep(s: State, c: nat, x: Task)
    requires Inv(s) && Running(s, c)
    requires x.run == Queued && x.cpu == c && HistoryOk(x)
    requires Local(x, s.cpus[c], true, s.ctrl == Posted(s.cpus[c].curr))
    ensures Inv(SetTask(s, s.cpus[c].curr, x))
  {
    var s' := SetTask(s, s.cpus[c].curr, x);
    assert CpuOk(s, c);
    forall t, d
      ensures QueuedOn(s', t, d) <==> QueuedOn(s, t, d)
    {}
    forall t | TaskId(s', t)
      ensures TaskOk(s', t)
    {
      assert TaskOk(s, t);
    }
    forall d | 0 <= d < |s'.cpus|
      ensures CpuOk(s', d)
    {
      assert CpuOk(s, d);
    }
  }

  /** A CPU's flags change, not what it runs. */
  lemma CpuStep(s: State, c: nat, cpu: Cpu)
    requires Inv(s) && c < |s.cpus| && cpu.curr == s.cpus[c].curr
    requires Running(s, c) ==> Local(Curr(s, c), cpu, true, s.ctrl == Posted(cpu.curr))
    requires cpu.curr == -1 ==> cpu.resched || Empty(s, c)
    ensures Inv(SetCpu(s, c, cpu))
  {
    var s' := SetCpu(s, c, cpu);
    forall t | TaskId(s', t)
      ensures TaskOk(s', t)
    {
      assert TaskOk(s, t);
    }
    forall t, d
      ensures QueuedOn(s', t, d) <==> QueuedOn(s, t, d)
    {}
    forall d | 0 <= d < |s'.cpus|
      ensures CpuOk(s', d)
    {
      assert CpuOk(s, d);
    }
  }

  /** A task that runs nowhere changes: it sleeps, wakes, arrives on a queue or moves between two. */
  lemma OtherStep(s: State, t: nat, x: Task)
    requires Inv(s) && TaskId(s, t) && s.cpus[s.tasks[t].cpu].curr != t
    requires x.cpu < |s.cpus| && HistoryOk(x) && Local(x, s.cpus[x.cpu], false, s.ctrl == Posted(t))
    requires x.run == Queued ==> s.cpus[x.cpu].curr != -1 || s.cpus[x.cpu].resched
    ensures Inv(SetTask(s, t, x))
  {
    var s' := SetTask(s, t, x);
    assert TaskOk(s, t);
    forall d | 0 <= d < |s'.cpus|
      ensures CpuOk(s', d) && s.cpus[d].curr != t
    {
      assert CpuOk(s, d);
      forall u | QueuedOn(s', u, d)
        ensures QueuedOn(s, u, d) || (u == t && x.cpu == d && x.run == Queued)
      {}
    }
    forall u | TaskId(s', u)
      ensures TaskOk(s', u)
    {
      assert TaskOk(s, u);
    }
  }

  /** The controller moves on, past the look at the halt it owed, if it owed one. */
  lemma CtrlStep(s: State, ctrl: Ctrl)
    requires Inv(s) && CtrlOk(s.(ctrl := ctrl))
    requires s.ctrl.Posted? && ctrl != s.ctrl && s.tasks[s.ctrl.t].pc == Halted && s.tasks[s.ctrl.t].q != [] ==>
               s.cpus[s.tasks[s.ctrl.t].cpu].irq
    ensures Inv(s.(ctrl := ctrl))
  {
    var s' := s.(ctrl := ctrl);
    forall t | TaskId(s', t)
      ensures TaskOk(s', t)
    {
      assert TaskOk(s, t);
    }
    forall d | 0 <= d < |s'.cpus|
      ensures CpuOk(s', d)
    {
      assert CpuOk(s, d);
      forall u | QueuedOn(s', u, d)
        ensures QueuedOn(s, u, d)
      {}
    }
  }

  function Idled(s: State, c: nat): State
    requires c < |s.cpus|
  {
    SetCpu(s, c, s.cpus[c].(curr := -1, resched := true))
  }

  /** A CPU puts down a task that is on its way back to user mode. */
  lemma IdleStep(s: State, c: nat)
    requires Inv(s) && c < |s.cpus| && (Running(s, c) ==> Curr(s, c).pc.Exit?)
    ensures Inv(Idled(s, c))
  {
    var s' := Idled(s, c);
    assert CpuOk(s, c);
    forall t | TaskId(s', t)
      ensures TaskOk(s', t)
    {
      assert TaskOk(s, t);
    }
    forall t, d
      ensures QueuedOn(s', t, d) <==> QueuedOn(s, t, d)
    {}
    forall d | 0 <= d < |s'.cpus|
      ensures CpuOk(s', d)
    {
      assert CpuOk(s, d);
    }
  }

  /** A CPU with nothing current takes up what it may. */
  lemma PickStep(s: State, c: nat, pick: int)
    requires Inv(s) && c < |s.cpus| && s.cpus[c].curr == -1 && ValidPick(s, c, pick)
    ensures Inv(Switch(s, c, pick))
  {
    var s' := Switch(s, c, pick);
    if pick != -1 {
      assert TaskOk(s, pick);
    }
    forall t | TaskId(s', t)
      ensures TaskOk(s', t)
    {
      assert TaskOk(s, t);
      assert CpuOk(s, s.tasks[t].cpu);
    }
    forall d | 0 <= d < |s'.cpus|
      ensures CpuOk(s', d)
    {
      assert CpuOk(s, d);
      forall t | QueuedOn(s', t, d) && d != c
        ensures QueuedOn(s, t, d)
      {}
      forall t | QueuedOn(s', t, c)
        ensures QueuedOn(s, t, c) || t == pick
      {}
    }
  }

  lemma SwitchStep(s: State, c: nat, pick: int)
    requires Inv(s) && c < |s.cpus| && (Running(s, c) ==> Curr(s, c).pc.Exit?) && ValidPick(s, c, pick)
    ensures Inv(Switch(s, c, pick))
  {
    IdleStep(s, c);
    var idle := Idled(s, c);
    forall t, d
      ensures QueuedOn(idle, t, d) <==> QueuedOn(s, t, d)
    {}
    PickStep(idle, c, pick);
    assert Switch(idle, c, pick).cpus == Switch(s, c, pick).cpus;
    assert Switch(idle, c, pick) == Switch(s, c, pick);
  }

  /** The running task goes off its queue, as x, and the CPU takes up another. */
  lemma SleepStep(s: State, c: nat, x: Task, pick: int)
    requires Inv(s) && Running(s, c)
    requires x.run == Off && x.cpu == c && HistoryOk(x) && Local(x, s.cpus[c], false, s.ctrl == Posted(s.cpus[c].curr))
    requires ValidPick(SetTask(s, s.cpus[c].curr, x), c, pick)
    ensures Inv(Switch(SetTask(s, s.cpus[c].curr, x), c, pick))
  {
    var t := s.cpus[c].curr;
    assert CpuOk(s, c) && TaskOk(s, t);
    var s0 := s.tasks[t].(pc := Exit(NONE), settled := false);
    OwnStep(s, c, s0);
    var s1 := SetTask(s, t, s0);
    IdleStep(s1, c);
    var s2 := Idled(s1, c);
    OtherStep(s2, t, x);
    var s3, after := SetTask(s2, t, x), SetTask(s, t, x);
    assert s3.tasks == after.tasks;
    forall u, d
      ensures QueuedOn(s3, u, d) <==> QueuedOn(after, u, d)
    {}
    PickStep(s3, c, pick);
    assert Switch(s3, c, pick).cpus == Switch(after, c, pick).cpus;
    assert Switch(s3, c, pick) == Switch(after, c, pick);
  }

  lemma TaskStepKeeps(s: State, step: Step)
    requires Inv(s) && Enabled(s, step)
    requires step.Leave? || step.Handle? || step.Read? || step.Check? || step.Resume?
    ensures Inv(Apply(s, step))
  {
    var c := step.c;
    var t := s.cpus[c].curr;
    assert CpuOk(s, c) && TaskOk(s, t);
    if step.Read? {
      TakenKeepsHistory(s.tasks[t]);
    }
    OwnStep(s, c, Apply(s, step).tasks[t]);
  }

  /** Taking moves one action from the queue to what has been taken, and only an empty queue reads NONE. */
  lemma TakenKeepsHistory(x: Task)
    requires HistoryOk(x)
    ensures HistoryOk(Taken(x))
    ensures Front(x.q) == NONE <==> x.q == []
  {
    if x.q != [] {
      assert x.put[|x.taken|] == x.q[0];
      assert x.taken + x.q == (x.taken + [x.q[0]]) + x.q[1..];
    }
  }

  lemma CallKeeps(s: State, step: Step)
    requires Inv(s) && Enabled(s, step)
    requires step.Call? || step.CallWake?
    ensures Inv(Apply(s, step))
  {
    var c := step.c;
    var t := s.cpus[c].curr;
    assert CpuOk(s, c) && TaskOk(s, t);
    var x := s.tasks[t].(pc := if step.Call? && s.tasks[t].pc.a == NONE then Take else Exit(NONE));
    OwnStep(s, c, x);
    var s1 := SetTask(s, t, x);
    if step.CallWake? {
      assert TaskOk(s1, step.reader) && CpuOk(s1, s1.tasks[step.reader].cpu);
      OtherStep(s1, step.reader, Wake(s1, step.reader, step.home).tasks[step.reader]);
    } else {
      TokensKeep(s1, Apply(s, step).tokens);
    }
  }

  lemma TokensKeep(s: State, n: nat)
    requires Inv(s)
    ensures Inv(s.(tokens := n))
  {
    var s' := s.(tokens := n);
    forall t | TaskId(s', t)
      ensures TaskOk(s', t)
    {
      assert TaskOk(s, t);
    }
    forall t, d
      ensures QueuedOn(s', t, d) <==> QueuedOn(s, t, d)
    {}
    forall d | 0 <= d < |s'.cpus|
      ensures CpuOk(s', d)
    {
      assert CpuOk(s, d);
    }
  }

  lemma CallSleepKeeps(s: State, c: nat, pick: int)
    requires Inv(s) && Enabled(s, CallSleep(c, pick))
    ensures Inv(Apply(s, CallSleep(c, pick)))
  {
    var t := s.cpus[c].curr;
    assert CpuOk(s, c) && TaskOk(s, t);
    var s1 := BeforeSwitch(s, CallSleep(c, pick));
    if Sleeps(s, c) {
      SleepStep(s, c, s1.tasks[t], pick);
    } else {
      OwnStep(s, c, s1.tasks[t]);
      SwitchStep(s1, c, pick);
    }
  }

  lemma ReadParkKeeps(s: State, c: nat, pick: int)
    requires Inv(s) && Enabled(s, ReadPark(c, pick))
    ensures Inv(Apply(s, ReadPark(c, pick)))
  {
    var t := s.cpus[c].curr;
    assert CpuOk(s, c) && TaskOk(s, t);
    TakenKeepsHistory(s.tasks[t]);
    var s1 := BeforeSwitch(s, ReadPark(c, pick));
    assert s1 == SetTask(s, t, s1.tasks[t]);
    SleepStep(s, c, s1.tasks[t], pick);
  }

  lemma InterruptKeeps(s: State, c: nat)
    requires Inv(s) && c < |s.cpus| && IrqsOn(s, c)
    ensures Inv(Interrupt(s, c))
    ensures Running(s, c) ==> Running(Interrupt(s, c), c) && Curr(Interrupt(s, c), c).pc !in {Halted, IrqOff}
    ensures forall t, d :: QueuedOn(Interrupt(s, c), t, d) <==> QueuedOn(s, t, d)
  {
    if Running(s, c) {
      assert CpuOk(s, c) && TaskOk(s, s.cpus[c].curr);
      OwnStep(s, c, Interrupt(s, c).tasks[s.cpus[c].curr]);
    }
  }

  lemma KernelStepKeeps(s: State, step: Step)
    requires Inv(s) && Enabled(s, step)
    requires step.Irq? || step.Activate? || step.Tick?
    ensures Inv(Apply(s, step))
  {
    var c := step.c;
    assert CpuOk(s, c);
    InterruptKeeps(s, c);
    var s1 := Interrupt(s, c);
    assert Running(s1, c) ==> TaskOk(s1, s1.cpus[c].curr);
    var cpu := Apply(s, step).cpus[c];
    CpuStep(s1, c, cpu);
    if step.Activate? {
      var s2 := SetCpu(s1, c, cpu);
      assert TaskOk(s, step.t) && TaskOk(s2, step.t);
      OtherStep(s2, step.t, Apply(s, step).tasks[step.t]);
    }
  }

  lemma PutKeeps(s: State, t: nat, act: Act)
    requires Inv(s) && Enabled(s, Put(t, act)) && !InWindow(s, t)
    ensures Inv(Apply(s, Put(t, act)))
  {
    assert TaskOk(s, t);
    CtrlStep(s, Posted(t));
    var s1 := s.(ctrl := Posted(t));
    var x := Apply(s, Put(t, act)).tasks[t];
    assert CpuOk(s1, x.cpu);
    if s.cpus[x.cpu].curr == t {
      OwnStep(s1, x.cpu, x);
    } else {
      assert x.run == Queued ==> QueuedOn(s1, t, x.cpu);
      OtherStep(s1, t, x);
    }
  }

  lemma SignalKeeps(s: State, t: nat, home: nat)
    requires Inv(s) && Enabled(s, Signal(t, home))
    ensures Inv(Apply(s, Signal(t, home)))
  {
    var x := s.tasks[t];
    var s' := Apply(s, Signal(t, home));
    assert TaskOk(s, t) && CpuOk(s, x.cpu);
    if x.pc.Asleep? {
      OtherStep(s, t, s'.tasks[t]);
      assert SetTask(s, t, s'.tasks[t]) == s'.(ctrl := s.ctrl);
      CtrlStep(s'.(ctrl := s.ctrl), s'.ctrl);
    } else if s.cpus[x.cpu].curr == t {
      CpuStep(s, x.cpu, s'.cpus[x.cpu]);
      OwnStep(SetCpu(s, x.cpu, s'.cpus[x.cpu]), x.cpu, s'.tasks[t]);
      CtrlStep(s'.(ctrl := s.ctrl), s'.ctrl);
    } else {
      assert x.run == Queued ==> QueuedOn(s, t, x.cpu);
      OtherStep(s, t, s'.tasks[t]);
      CtrlStep(s'.(ctrl := s.ctrl), s'.ctrl);
    }
  }

  lemma MigrateKeeps(s: State, t: nat, home: nat, preempt: bool)
    requires Inv(s) && Enabled(s, Migrate(t, home, preempt))
    ensures Inv(Apply(s, Migrate(t, home, preempt)))
  {
    var s' := Apply(s, Migrate(t, home, preempt));
    assert TaskOk(s, t) && CpuOk(s, home);
    assert Running(s, home) ==> TaskOk(s, s.cpus[home].curr);
    CpuStep(s, home, s'.cpus[home]);
    OtherStep(SetCpu(s, home, s'.cpus[home]), t, s'.tasks[t]);
    assert SetCpu(s, home, s'.cpus[home]).cpus == s'.cpus;
  }

  lemma CreateKeeps(s: State)
    requires Inv(s) && Enabled(s, Create)
    ensures Inv(Apply(s, Create))
  {
    var s' := Apply(s, Create);
    forall t | TaskId(s', t)
      ensures TaskOk(s', t)
    {
      if t < |s.tasks| {
        assert TaskOk(s, t);
      }
    }
    forall d | 0 <= d < |s'.cpus|
      ensures CpuOk(s', d)
    {
      assert CpuOk(s, d);
      forall t | QueuedOn(s', t, d) && d != 0
        ensures QueuedOn(s, t, d)
      {}
    }
  }

  lemma CreatedKeeps(s: State, home: nat)
    requires Inv(s) && Enabled(s, Created(home))
    ensures Inv(Apply(s, Created(home)))
  {
    var t := s.ctrl.t;
    assert TaskOk(s, t) && CpuOk(s, s.tasks[t].cpu);
    OtherStep(s, t, s.tasks[t].(cpu := home));
    CtrlStep(SetTask(s, t, s.tasks[t].(cpu := home)), Ready);
  }

  lemma KickKeeps(s: State)
    requires Inv(s) && Enabled(s, Kick)
    ensures Inv(Apply(s, Kick))
  {
    var x := s.tasks[s.ctrl.t];
    assert TaskOk(s, s.ctrl.t) && CpuOk(s, x.cpu);
    if x.settled {
      var cpu := s.cpus[x.cpu].(irq := true);
      assert Running(s, x.cpu) ==> TaskOk(s, s.cpus[x.cpu].curr);
      CpuStep(s, x.cpu, cpu);
      CtrlStep(SetCpu(s, x.cpu, cpu), Kicking(x.cpu));
    } else {
      CtrlStep(s, Settling(1));
    }
  }

  lemma ControllerStepKeeps(s: State, step: Step)
    requires Inv(s) && Enabled(s, step) && Controls(step)
    requires step.Put? ==> !InWindow(s, step.t)
    ensures Inv(Apply(s, step))
  {
    match step
    case Create => CreateKeeps(s);
    case Created(home) => CreatedKeeps(s, home);
    case Put(t, act) => PutKeeps(s, t, act);
    case Kick => KickKeeps(s);
    case Kicked => CtrlStep(s, Settling(1));
    case Signal(t, home) => SignalKeeps(s, t, home);
    case Migrate(t, home, preempt) => MigrateKeeps(s, t, home, preempt);
    case SettleStart => CtrlStep(s, Settling(1));
    case Poll => CtrlStep(s, Settling(s.ctrl.c + 1));
    case _ => CtrlStep(s, Ready);
  }

  predicate Controls(step: Step) {
    step.Create? || step.Created? || step.Put? || step.Kick? || step.Kicked? || step.Signal? || step.Migrate?
    || step.SettleStart? || step.Poll? || step.SettleDone?
  }

  lemma StepKeepsInv(s: State, step: Step)
    requires Inv(s) && Enabled(s, step)
    requires step.Put? ==> !InWindow(s, step.t)
    ensures Inv(Apply(s, step))
  {
    if Controls(step) {
      ControllerStepKeeps(s, step);
    } else {
      match step
      case Call(_) => CallKeeps(s, step);
      case CallWake(_, _, _) => CallKeeps(s, step);
      case CallSleep(c, pick) => CallSleepKeeps(s, c, pick);
      case ReadPark(c, pick) => ReadParkKeeps(s, c, pick);
      case Resched(c, pick) => SwitchStep(s, c, pick);
      case Irq(_) => KernelStepKeeps(s, step);
      case Activate(_, _, _) => KernelStepKeeps(s, step);
      case Tick(_, _) => KernelStepKeeps(s, step);
      case _ => TaskStepKeeps(s, step);
    }
  }
}
