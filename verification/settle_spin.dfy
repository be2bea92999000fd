/** The spin in kstep_settle ends: every internal step spends some of a finite weight, and a CPU that
    does not test settled always has an internal step of its own to take. */
module SettleSpin {
  import opened Control
  import opened Settle

  // ---- the weight ----

  /** A queued action outweighs performing it, and performing it outweighs the one wakeup it may cause. */
  function TaskWeight(x: Task): nat {
    70 * |x.q| + (if x.sig then 1 else 0)
    + (match x.run case Off => 0 case Waking => 40 case Queued => 10)
    + (if (x.pc.Exit? || x.pc.User?) && x.pc.a != NONE then 60 else 0)
  }

  /** How far a running task is from its halt; further, if something pending will turn it back. */
  function Distance(pc: Pc, pending: bool): nat {
    match pc
    case AfterHalt => if pending then 6 else 5
    case Exit(_) => if pending then 5 else 4
    case User(_) => if pending then 8 else 3
    case Take => if pending then 7 else 2
    case IrqOff => if pending then 6 else 1
    case _ => 0
  }

  function CpuWeight(s: State, c: nat): nat
    requires c < |s.cpus|
  {
    (if s.cpus[c].irq then 8 else 0) + (if s.cpus[c].resched then 12 else 0)
    + (if Running(s, c) then Distance(Curr(s, c).pc, s.cpus[c].resched || Curr(s, c).sig) else 0)
  }

  function TaskSum(ts: seq<Task>): nat {
    if ts == [] then 0 else TaskWeight(ts[0]) + TaskSum(ts[1..])
  }

  function CpuSum(s: State, n: nat): nat
    requires n <= |s.cpus|
  {
    if n == 0 then 0 else CpuSum(s, n - 1) + CpuWeight(s, n - 1)
  }

  function Weight(s: State): nat {
    TaskSum(s.tasks) + CpuSum(s, |s.cpus|)
  }

  lemma {:induction false} TaskSumUpdate(ts: seq<Task>, t: nat, x: Task)
    requires t < |ts|
    ensures TaskSum(ts[t := x]) == TaskSum(ts) - TaskWeight(ts[t]) + TaskWeight(x)
  {
    if t == 0 {
      assert ts[0 := x][1..] == ts[1..];
    } else {
      assert ts[t := x][1..] == ts[1..][t - 1 := x];
      TaskSumUpdate(ts[1..], t - 1, x);
    }
  }

  lemma {:induction false} CpuSumChange(s: State, s': State, c: nat, n: nat)
    requires n <= |s.cpus| == |s'.cpus| && c < |s.cpus|
    requires forall d: nat :: d < n && d != c ==> CpuWeight(s', d) == CpuWeight(s, d)
    ensures CpuSum(s', n) == CpuSum(s, n) + (if c < n then CpuWeight(s', c) - CpuWeight(s, c) else 0)
  {
    if n > 0 {
      CpuSumChange(s, s', c, n - 1);
    }
  }

  // ---- every internal step spends weight ----

  /** A running task runs on its own CPU and no other. */
  lemma OnlyThere(s: State, c: nat)
    requires Inv(s) && c < |s.cpus|
    ensures s.cpus[c].curr == -1 || TaskId(s, s.cpus[c].curr)
    ensures s.cpus[c].curr != -1 ==> forall d: nat :: d < |s.cpus| && d != c ==> s.cpus[d].curr != s.cpus[c].curr
  {
    assert CpuOk(s, c);
    forall d: nat | d < |s.cpus| && d != c
      ensures s.cpus[c].curr != -1 ==> s.cpus[d].curr != s.cpus[c].curr
    {
      assert CpuOk(s, d);
    }
  }

  lemma NowhereRunning(s: State, t: nat)
    requires Inv(s) && TaskId(s, t) && (s.tasks[t].run != Queued || s.cpus[s.tasks[t].cpu].curr != t)
    ensures forall d: nat :: d < |s.cpus| ==> s.cpus[d].curr != t
  {
    forall d: nat | d < |s.cpus|
      ensures s.cpus[d].curr != t
    {
      assert CpuOk(s, d);
    }
  }

  /** What CPU c and its current task weigh together. */
  function OwnWeight(s: State, c: nat): nat
    requires c < |s.cpus|
  {
    CpuWeight(s, c) + if Running(s, c) then TaskWeight(Curr(s, c)) else 0
  }

  /** Nothing but CPU c and its task changes, and its task stays current. */
  lemma OwnSpends(s: State, s': State, c: nat)
    requires Inv(s) && c < |s.cpus| && Running(s, c)
    requires |s'.cpus| == |s.cpus| && s'.cpus == s.cpus[c := s'.cpus[c]] && s'.cpus[c].curr == s.cpus[c].curr
    requires |s'.tasks| == |s.tasks| && s'.tasks == s.tasks[s.cpus[c].curr := s'.tasks[s.cpus[c].curr]]
    ensures Weight(s') == Weight(s) + OwnWeight(s', c) - OwnWeight(s, c)
  {
    OnlyThere(s, c);
    forall d: nat | d < |s.cpus| && d != c
      ensures CpuWeight(s', d) == CpuWeight(s, d)
    {}
    CpuSumChange(s, s', c, |s.cpus|);
    TaskSumUpdate(s.tasks, s.cpus[c].curr, s'.tasks[s.cpus[c].curr]);
  }

  /** A task that runs nowhere changes. */
  lemma OtherSpends(s: State, t: nat, x: Task)
    requires TaskId(s, t) && forall d: nat :: d < |s.cpus| ==> s.cpus[d].curr != t
    ensures Weight(SetTask(s, t, x)) == Weight(s) + TaskWeight(x) - TaskWeight(s.tasks[t])
    ensures forall d: nat :: d < |s.cpus| ==> CpuWeight(SetTask(s, t, x), d) == CpuWeight(s, d)
  {
    var s' := SetTask(s, t, x);
    forall d: nat | d < |s.cpus|
      ensures CpuWeight(s', d) == CpuWeight(s, d)
    {}
    if |s.cpus| > 0 {
      CpuSumChange(s, s', 0, |s.cpus|);
    }
    TaskSumUpdate(s.tasks, t, x);
  }

  lemma TaskStepSpends(s: State, step: Step)
    requires Inv(s) && Enabled(s, step)
    requires step.Leave? || step.Handle? || step.Check? || step.Resume?
    ensures Weight(Apply(s, step)) < Weight(s)
  {
    assert CpuOk(s, step.c);
    OwnSpends(s, Apply(s, step), step.c);
  }

  lemma CallSpends(s: State, c: nat)
    requires Inv(s) && Enabled(s, Call(c))
    ensures Weight(Apply(s, Call(c))) < Weight(s)
  {
    assert CpuOk(s, c);
    OwnSpends(s, Apply(s, Call(c)), c);
  }

  lemma ReadSpends(s: State, c: nat)
    requires Inv(s) && Enabled(s, Read(c))
    ensures Weight(Apply(s, Read(c))) < Weight(s)
  {
    assert CpuOk(s, c) && TaskOk(s, s.cpus[c].curr);
    TakenKeepsHistory(Curr(s, c));
    OwnSpends(s, Apply(s, Read(c)), c);
  }

  lemma InterruptedDistance(pc: Pc, before: bool, after: bool)
    requires pc != IrqOff
    ensures Distance(Interrupted(pc), after) <= Distance(pc, before) + 6
  {}

  /** Taking an interrupt costs the CPU at most six, whatever flags it leaves. */
  lemma InterruptSpends(s: State, c: nat, cpu: Cpu)
    requires Inv(s) && c < |s.cpus| && IrqsOn(s, c) && cpu.curr == s.cpus[c].curr
    ensures var s' := SetCpu(Interrupt(s, c), c, cpu);
      Weight(s') <= Weight(s) + 6 + (if cpu.irq then 8 else 0) + (if cpu.resched then 12 else 0)
                    - (if s.cpus[c].irq then 8 else 0) - (if s.cpus[c].resched then 12 else 0)
  {
    var s' := SetCpu(Interrupt(s, c), c, cpu);
    OnlyThere(s, c);
    if Running(s, c) {
      var t := s.cpus[c].curr;
      InterruptedDistance(s.tasks[t].pc, s.cpus[c].resched || s.tasks[t].sig, cpu.resched || s.tasks[t].sig);
      assert s'.tasks[t] == s.tasks[t].(pc := Interrupted(s.tasks[t].pc));
      OwnSpends(s, s', c);
    } else {
      forall d: nat | d < |s.cpus| && d != c
        ensures CpuWeight(s', d) == CpuWeight(s, d)
      {}
      CpuSumChange(s, s', c, |s.cpus|);
    }
  }

  lemma ActivateSpends(s: State, c: nat, t: nat, preempt: bool)
    requires Inv(s) && Enabled(s, Activate(c, t, preempt))
    ensures Weight(Apply(s, Activate(c, t, preempt))) < Weight(s)
  {
    var s' := Apply(s, Activate(c, t, preempt));
    assert TaskOk(s, t);
    NowhereRunning(s, t);
    InterruptSpends(s, c, s'.cpus[c]);
    OtherSpends(SetCpu(Interrupt(s, c), c, s'.cpus[c]), t, s'.tasks[t]);
  }

  lemma CallWakeSpends(s: State, c: nat, reader: nat, home: nat)
    requires Inv(s) && Enabled(s, CallWake(c, reader, home))
    ensures Weight(Apply(s, CallWake(c, reader, home))) < Weight(s)
  {
    var s1 := Jump(s, c, Exit(NONE));
    assert CpuOk(s, c) && TaskOk(s, reader);
    OwnSpends(s, s1, c);
    NowhereRunning(s, reader);
    OtherSpends(s1, reader, Wake(s1, reader, home).tasks[reader]);
  }

  /** CPU c puts its task down, as x, and takes up pick, which was on its way back to user mode. */
  lemma SwitchSpends(s: State, c: nat, x: Task, pick: int)
    requires Inv(s) && Running(s, c) && (x.run == Queued ==> x.pc.Exit?)
    requires ValidPick(SetTask(s, s.cpus[c].curr, x), c, pick)
    ensures Weight(Switch(SetTask(s, s.cpus[c].curr, x), c, pick))
            <= Weight(s) + TaskWeight(x) - OwnWeight(s, c) + 5 + (if s.cpus[c].irq then 8 else 0)
  {
    var t := s.cpus[c].curr;
    assert CpuOk(s, c);
    OnlyThere(s, c);
    var idle := Cpu(-1, false, s.cpus[c].irq);
    var s1 := SetCpu(s, c, idle);
    forall d: nat | d < |s.cpus| && d != c
      ensures CpuWeight(s1, d) == CpuWeight(s, d)
    {}
    CpuSumChange(s, s1, c, |s.cpus|);
    OtherSpends(s1, t, x);
    var s2 := SetTask(s1, t, x);
    if pick != t && pick != -1 {
      assert TaskOk(s, pick);
      NowhereRunning(s, pick);
    }
    PickSpends(s2, c, pick);
    assert Switch(s2, c, pick).cpus == Switch(SetTask(s, t, x), c, pick).cpus;
    assert Switch(s2, c, pick) == Switch(SetTask(s, t, x), c, pick);
  }

  lemma PickSpends(s: State, c: nat, pick: int)
    requires c < |s.cpus| && s.cpus[c].curr == -1
    requires pick == -1 || (TaskId(s, pick) && s.tasks[pick].pc.Exit? && forall d: nat :: d < |s.cpus| ==> s.cpus[d].curr != pick)
    ensures Weight(Switch(s, c, pick)) <= Weight(s) + 5 - (if s.cpus[c].resched then 12 else 0)
  {
    var s1 := if pick == -1 then s else SetTask(s, pick, s.tasks[pick].(cpu := c));
    if pick != -1 {
      OtherSpends(s, pick, s.tasks[pick].(cpu := c));
    }
    var s2 := Switch(s, c, pick);
    forall d: nat | d < |s.cpus| && d != c
      ensures CpuWeight(s2, d) == CpuWeight(s1, d)
    {}
    CpuSumChange(s1, s2, c, |s.cpus|);
  }

  lemma CallSleepSpends(s: State, c: nat, pick: int)
    requires Inv(s) && Enabled(s, CallSleep(c, pick))
    ensures Weight(Apply(s, CallSleep(c, pick))) < Weight(s)
  {
    var x := BeforeSwitch(s, CallSleep(c, pick)).tasks[s.cpus[c].curr];
    assert CpuOk(s, c);
    SwitchSpends(s, c, x, pick);
  }

  lemma ReadParkSpends(s: State, c: nat, pick: int)
    requires Inv(s) && Enabled(s, ReadPark(c, pick))
    ensures Weight(Apply(s, ReadPark(c, pick))) < Weight(s)
  {
    var s1 := BeforeSwitch(s, ReadPark(c, pick));
    var x := s1.tasks[s.cpus[c].curr];
    assert CpuOk(s, c);
    assert s1 == SetTask(s, s.cpus[c].curr, x);
    SwitchSpends(s, c, x, pick);
  }

  lemma ReschedSpends(s: State, c: nat, pick: int)
    requires Inv(s) && Enabled(s, Resched(c, pick))
    ensures Weight(Apply(s, Resched(c, pick))) < Weight(s)
  {
    assert CpuOk(s, c);
    if Running(s, c) {
      assert SetTask(s, s.cpus[c].curr, Curr(s, c)) == s;
      SwitchSpends(s, c, Curr(s, c), pick);
    } else {
      if pick != -1 {
        assert TaskOk(s, pick);
        NowhereRunning(s, pick);
      }
      PickSpends(s, c, pick);
    }
  }

  lemma KernelStepSpends(s: State, step: Step)
    requires Inv(s) && Enabled(s, step) && (step.Resched? || step.Irq? || step.Activate?)
    ensures Weight(Apply(s, step)) < Weight(s)
  {
    match step
    case Resched(c, pick) => ReschedSpends(s, c, pick);
    case Irq(c) => InterruptSpends(s, c, s.cpus[c].(irq := false));
    case Activate(c, t, preempt) => ActivateSpends(s, c, t, preempt);
  }

  lemma InternalStepSpends(s: State, step: Step)
    requires Inv(s) && Enabled(s, step) && Internal(step)
    ensures Weight(Apply(s, step)) < Weight(s)
  {
    if step.Resched? || step.Irq? || step.Activate? {
      KernelStepSpends(s, step);
    } else {
      match step
      case Call(c) => CallSpends(s, c);
      case CallSleep(c, pick) => CallSleepSpends(s, c, pick);
      case CallWake(c, reader, home) => CallWakeSpends(s, c, reader, home);
      case Read(c) => ReadSpends(s, c);
      case ReadPark(c, pick) => ReadParkSpends(s, c, pick);
      case _ => TaskStepSpends(s, step);
    }
  }

  // ---- and an unsettled CPU can take one ----

  lemma PickExists(s: State, c: nat) returns (pick: int)
    ensures ValidPick(s, c, pick)
  {
    if Empty(s, c) {
      pick := -1;
    } else {
      pick :| QueuedOn(s, pick, c);
    }
  }

  /** A step of c's own, which wakes nobody elsewhere. */
  predicate OwnStepOf(step: Step, c: nat) {
    Internal(step) && step.c == c && (step.CallWake? ==> step.home == c)
  }

  ghost predicate CanStep(s: State, c: nat) {
    exists step :: OwnStepOf(step, c) && Enabled(s, step)
  }

  lemma TaskCanStep(s: State, c: nat)
    requires Inv(s) && TestCpu(s, c) && Running(s, c) && Curr(s, c).pc != Halted
    ensures CanStep(s, c)
  {
    var t, pc := s.cpus[c].curr, Curr(s, c).pc;
    assert CpuOk(s, c) && TaskOk(s, t);
    match pc
    case Exit(_) =>
      if Curr(s, c).sig {
        assert OwnStepOf(Handle(c), c) && Enabled(s, Handle(c));
      } else if s.cpus[c].resched {
        var pick := PickExists(s, c);
        assert OwnStepOf(Resched(c, pick), c) && Enabled(s, Resched(c, pick));
      } else {
        assert OwnStepOf(Leave(c), c) && Enabled(s, Leave(c));
      }
    case User(a) =>
      if Sleeps(s, c) || a == YIELD {
        var pick := PickExists(BeforeSwitch(s, CallSleep(c, -1)), c);
        assert BeforeSwitch(s, CallSleep(c, pick)) == BeforeSwitch(s, CallSleep(c, -1));
        assert OwnStepOf(CallSleep(c, pick), c) && Enabled(s, CallSleep(c, pick));
      } else if a == CHAN_WRITE && exists r :: ReaderAsleep(s, r) {
        WriterCanStep(s, c);
      } else {
        assert OwnStepOf(Call(c), c) && Enabled(s, Call(c));
      }
    case Take =>
      if Front(Curr(s, c).q) == PARK && !Curr(s, c).sig {
        var pick := PickExists(BeforeSwitch(s, ReadPark(c, -1)), c);
        assert BeforeSwitch(s, ReadPark(c, pick)) == BeforeSwitch(s, ReadPark(c, -1));
        assert OwnStepOf(ReadPark(c, pick), c) && Enabled(s, ReadPark(c, pick));
      } else {
        assert OwnStepOf(Read(c), c) && Enabled(s, Read(c));
      }
    case IrqOff => assert OwnStepOf(Check(c), c) && Enabled(s, Check(c));
    case AfterHalt => assert OwnStepOf(Resume(c), c) && Enabled(s, Resume(c));
  }

  lemma WriterCanStep(s: State, c: nat)
    requires TestCpu(s, c) && At(s, c, User(CHAN_WRITE)) && exists r :: ReaderAsleep(s, r)
    ensures CanStep(s, c)
  {
    var r :| ReaderAsleep(s, r);
    assert OwnStepOf(CallWake(c, r, c), c) && Enabled(s, CallWake(c, r, c));
  }

  /** Outside the instant between queueing an action and looking at the halt, a test CPU that does
      not test settled has a step of its own to take. */
  lemma UnsettledCanStep(s: State, c: nat)
    requires Inv(s) && TestCpu(s, c) && !s.ctrl.Posted? && !CpuSettled(s, c)
    ensures CanStep(s, c)
  {
    assert CpuOk(s, c);
    if Running(s, c) {
      assert TaskOk(s, s.cpus[c].curr);
    }
    if Running(s, c) && Curr(s, c).pc != Halted {
      TaskCanStep(s, c);
    } else if exists t :: TaskId(s, t) && s.tasks[t].cpu == c && s.tasks[t].run == Waking {
      var t :| TaskId(s, t) && s.tasks[t].cpu == c && s.tasks[t].run == Waking;
      assert OwnStepOf(Activate(c, t, false), c) && Enabled(s, Activate(c, t, false));
    } else if Running(s, c) {
      assert OwnStepOf(Irq(c), c) && Enabled(s, Irq(c));
    } else {
      var pick := PickExists(s, c);
      assert OwnStepOf(Resched(c, pick), c) && Enabled(s, Resched(c, pick));
    }
  }

  // ---- so the spin ends ----

  ghost predicate AllInternal(steps: seq<Step>) { forall i :: 0 <= i < |steps| ==> Internal(steps[i]) }

  lemma {:induction false} InternalRunsAreShort(s: State, steps: seq<Step>)
    requires Inv(s) && RunFrom(s, steps) && AllInternal(steps)
    ensures Inv(After(s, steps)) && After(s, steps).ctrl == s.ctrl && |After(s, steps).cpus| == |s.cpus|
    ensures |steps| + Weight(After(s, steps)) <= Weight(s)
    decreases |steps|
  {
    if steps != [] {
      assert Internal(steps[0]);
      StepKeepsInv(s, steps[0]);
      InternalStepSpends(s, steps[0]);
      InternalKeepsCtrl(s, steps[0]);
      InternalRunsAreShort(Apply(s, steps[0]), steps[1..]);
    }
  }

  lemma InternalKeepsCtrl(s: State, step: Step)
    requires Enabled(s, step) && Internal(step)
    ensures Apply(s, step).ctrl == s.ctrl && |Apply(s, step).cpus| == |s.cpus|
  {}

  /** While the controller polls, at most Weight(s) steps can happen, and as long as some test CPU does
      not test settled, that very CPU has one to take: every schedule reaches a state that passes. */
  lemma SpinEnds(s: State, steps: seq<Step>, c: nat)
    requires Inv(s) && s.ctrl.Settling? && RunFrom(s, steps) && AllInternal(steps) && TestCpu(s, c)
    ensures |steps| <= Weight(s)
    ensures CpuSettled(After(s, steps), c) || CanStep(After(s, steps), c)
  {
    InternalRunsAreShort(s, steps);
    if !CpuSettled(After(s, steps), c) {
      UnsettledCanStep(After(s, steps), c);
    }
  }

  ghost predicate SettlesBy(s: State, steps: seq<Step>) {
    RunFrom(s, steps) && AllInternal(steps) && forall c :: TestCpu(s, c) ==> CpuSettled(After(s, steps), c)
  }

  /** There is such a schedule from every state the controller polls in. */
  lemma {:induction false} SettledIsReached(s: State)
    requires Inv(s) && s.ctrl.Settling?
    ensures exists steps :: SettlesBy(s, steps)
    decreases Weight(s)
  {
    if c: nat :| TestCpu(s, c) && !CpuSettled(s, c) {
      var step := Progress(s, c);
      SettledIsReached(Apply(s, step));
      var rest :| SettlesBy(Apply(s, step), rest);
      SettlesAfter(s, step, rest);
    } else {
      SettlesAlready(s);
    }
  }

  lemma Progress(s: State, c: nat) returns (step: Step)
    requires Inv(s) && s.ctrl.Settling? && TestCpu(s, c) && !CpuSettled(s, c)
    ensures OwnStepOf(step, c) && Enabled(s, step)
    ensures Inv(Apply(s, step)) && Apply(s, step).ctrl.Settling? && Weight(Apply(s, step)) < Weight(s)
  {
    UnsettledCanStep(s, c);
    step :| OwnStepOf(step, c) && Enabled(s, step);
    StepKeepsInv(s, step);
    InternalStepSpends(s, step);
    InternalKeepsCtrl(s, step);
  }

  lemma SettlesAlready(s: State)
    requires forall c: nat :: TestCpu(s, c) ==> CpuSettled(s, c)
    ensures SettlesBy(s, [])
  {}

  lemma SettlesAfter(s: State, step: Step, rest: seq<Step>)
    requires Enabled(s, step) && Internal(step) && SettlesBy(Apply(s, step), rest)
    ensures SettlesBy(s, [step] + rest)
  {
    Then(s, step, rest);
    var s', s1 := After(s, [step] + rest), Apply(s, step);
    assert s' == After(s1, rest);
    InternalKeepsCtrl(s, step);
    assert forall c :: TestCpu(s, c) ==> TestCpu(s1, c);
  }
}
