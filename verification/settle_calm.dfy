/** When one pass of kstep_settle leaves every test CPU settled at once, as conditions on the state it begins
    in: calm is enough, and a CPU that tests settled without being quiet is too much. */
module SettleCalm {
  import opened Control
  import opened Settle
  import opened SettleSpin
  import opened SettlePass

  // ---- a state in which no CPU can be caught between its halt and its next read ----

  predicate Undone(x: Task) { x.q != [] || x.sig }

  /** An action queued for x, or that x is on its way to do. */
  predicate Owes(x: Task, act: Act) { act in x.q || ((x.pc.Exit? || x.pc.User?) && x.pc.a == act) }

  ghost predicate NoneOwes(s: State, act: Act) { forall t :: TaskId(s, t) ==> !Owes(s.tasks[t], act) }

  predicate WakingOnto(s: State, t: int, c: int) { TaskId(s, t) && s.tasks[t].cpu == c && s.tasks[t].run == Waking }

  /** No task that c runs will leave its halt while it tests settled, and a task on its way to c finds c
      idle and comes alone. */
  ghost predicate CalmCpu(s: State, c: int)
    requires 0 <= c < |s.cpus|
  {
    && (s.cpus[c].irq ==> Running(s, c) && Curr(s, c).pc == Halted && Undone(Curr(s, c)))
    && (Running(s, c) && Curr(s, c).pc == AfterHalt ==> s.cpus[c].resched || Undone(Curr(s, c)))
    && (forall t :: WakingOnto(s, t, c) ==> s.cpus[c].curr == -1 && !s.cpus[c].resched)
    && forall t, u :: WakingOnto(s, t, c) && WakingOnto(s, u, c) ==> t == u
  }

  /** No reader sleeps, and what runs neither sleeps nor gives way: it writes, or has nothing to do. */
  ghost predicate OnlyWrites(s: State) {
    && (forall t :: !ReaderAsleep(s, t))
    && (forall t :: TaskId(s, t) ==> s.tasks[t].run != Waking)
    && forall c :: 0 <= c < |s.cpus| ==> !s.cpus[c].resched && (Running(s, c) ==> Writes(Curr(s, c)))
  }

  /** Nobody sleeps in a read of the channel, or will. */
  ghost predicate NoReaders(s: State) { NoneOwes(s, CHAN_READ) && forall t :: !ReaderAsleep(s, t) }

  /** Nobody can wake a reader. */
  ghost predicate NoWakeup(s: State) { NoneOwes(s, CHAN_WRITE) || NoReaders(s) || OnlyWrites(s) }

  ghost predicate Calm(s: State) {
    NoWakeup(s) && forall c :: 0 <= c < |s.cpus| ==> CalmCpu(s, c)
  }

  lemma CalmSettledIsQuiet(s: State, c: nat)
    requires Inv(s) && Calm(s) && c < |s.cpus| && CpuSettled(s, c)
    ensures Quiet(s, c) && !s.cpus[c].irq
  {
    assert CpuOk(s, c) && CalmCpu(s, c);
    if Running(s, c) {
      assert TaskOk(s, s.cpus[c].curr);
    }
  }

  // ---- every internal step keeps it ----

  lemma CalmNeverWakes(s: State, step: Step)
    requires Calm(s) && Enabled(s, step)
    ensures !step.CallWake?
  {}

  lemma LoopOwesNothingNew(s: State, step: Step, t: nat, act: Act)
    requires Enabled(s, step) && Internal(step) && !step.CallSleep? && !step.ReadPark? && !step.Resched?
    requires TaskId(s, t) && act != NONE && !Owes(s.tasks[t], act)
    ensures TaskId(Apply(s, step), t) && !Owes(Apply(s, step).tasks[t], act)
  {}

  lemma SwitchOwesNothingNew(s: State, step: Step, t: nat, act: Act)
    requires Enabled(s, step) && (step.CallSleep? || step.ReadPark? || step.Resched?)
    requires TaskId(s, t) && act != NONE && !Owes(s.tasks[t], act)
    ensures TaskId(Apply(s, step), t) && !Owes(Apply(s, step).tasks[t], act)
  {}

  lemma InternalKeepsTasks(s: State, step: Step)
    requires Enabled(s, step) && Internal(step)
    ensures |Apply(s, step).tasks| == |s.tasks|
  {}

  lemma NoneOwesStays(s: State, step: Step, act: Act)
    requires Enabled(s, step) && Internal(step) && act != NONE && NoneOwes(s, act)
    ensures NoneOwes(Apply(s, step), act)
  {
    InternalKeepsTasks(s, step);
    forall t | TaskId(Apply(s, step), t)
      ensures !Owes(Apply(s, step).tasks[t], act)
    {
      if step.CallSleep? || step.ReadPark? || step.Resched? {
        SwitchOwesNothingNew(s, step, t, act);
      } else {
        LoopOwesNothingNew(s, step, t, act);
      }
    }
  }

  lemma NobodyFallsAsleep(s: State, step: Step, t: nat)
    requires Enabled(s, step) && Internal(step) && TaskId(s, t) && !Owes(s.tasks[t], CHAN_READ) && !ReaderAsleep(s, t)
    ensures !ReaderAsleep(Apply(s, step), t)
  {
    if step.CallSleep? || step.ReadPark? || step.Resched? {
      SwitchKeepsAwake(s, step, t);
    }
  }

  lemma SwitchKeepsAwake(s: State, step: Step, t: nat)
    requires Enabled(s, step) && (step.CallSleep? || step.ReadPark? || step.Resched?)
    requires TaskId(s, t) && !Owes(s.tasks[t], CHAN_READ) && !ReaderAsleep(s, t)
    ensures !ReaderAsleep(Apply(s, step), t)
  {}

  lemma NoReadersStays(s: State, step: Step)
    requires Enabled(s, step) && Internal(step) && NoReaders(s)
    ensures NoReaders(Apply(s, step))
  {
    NoneOwesStays(s, step, CHAN_READ);
    InternalKeepsTasks(s, step);
    forall t
      ensures !ReaderAsleep(Apply(s, step), t)
    {
      if TaskId(s, t) {
        assert !Owes(s.tasks[t], CHAN_READ) && !ReaderAsleep(s, t);
        NobodyFallsAsleep(s, step, t);
      }
    }
  }

  /** What runs then only writes, and only the loop's own steps are left. */
  lemma OnlyLoops(s: State, step: Step)
    requires Inv(s) && Enabled(s, step) && Internal(step) && OnlyWrites(s)
    ensures step.Leave? || step.Handle? || step.Call? || step.Read? || step.Check? || step.Resume? || step.Irq?
  {
    var c := step.c;
    if Running(s, c) && Curr(s, c).pc.User? {
      assert Owes(Curr(s, c), Curr(s, c).pc.a);
    }
    if Running(s, c) && Curr(s, c).pc == Take && Curr(s, c).q != [] {
      assert Owes(Curr(s, c), Curr(s, c).q[0]);
    }
  }

  predicate Writes(x: Task) { forall act :: Owes(x, act) ==> act == NONE || act == CHAN_WRITE }

  lemma OnlyWritesStays(s: State, step: Step)
    requires Inv(s) && Enabled(s, step) && Internal(step) && OnlyWrites(s)
    ensures OnlyWrites(Apply(s, step))
  {
    var c, s' := step.c, Apply(s, step);
    OnlyLoops(s, step);
    InternalKeepsTasks(s, step);
    OnlyThere(s, c);
    forall t
      ensures !ReaderAsleep(s', t) && (TaskId(s', t) ==> s'.tasks[t].run != Waking)
    {
      assert !ReaderAsleep(s, t);
    }
    forall d | 0 <= d < |s'.cpus|
      ensures !s'.cpus[d].resched && s'.cpus[d].curr == s.cpus[d].curr && (Running(s', d) ==> Writes(Curr(s', d)))
    {
      if Running(s', d) {
        assert Writes(Curr(s, d));
        WritesStays(s, step, s.cpus[d].curr);
      }
    }
  }

  lemma WritesStays(s: State, step: Step, t: nat)
    requires Enabled(s, step) && Internal(step) && !step.CallSleep? && !step.ReadPark? && !step.Resched?
    requires TaskId(s, t) && Writes(s.tasks[t])
    ensures TaskId(Apply(s, step), t) && Writes(Apply(s, step).tasks[t])
  {
    InternalKeepsTasks(s, step);
    forall act | Owes(Apply(s, step).tasks[t], act) && act != NONE
      ensures act == CHAN_WRITE
    {
      if !Owes(s.tasks[t], act) {
        LoopOwesNothingNew(s, step, t, act);
      }
    }
  }

  lemma CalmOwnLoop(s: State, step: Step)
    requires Inv(s) && Enabled(s, step) && (step.Leave? || step.Handle? || step.Call? || step.Read? || step.Check? || step.Resume?)
    requires step.c < |s.cpus| && CalmCpu(s, step.c)
    ensures step.c < |Apply(s, step).cpus| && CalmCpu(Apply(s, step), step.c)
  {
    var c, s' := step.c, Apply(s, step);
    assert CpuOk(s, c) && TaskOk(s, s.cpus[c].curr);
    assert s'.cpus == s.cpus;
    forall t | WakingOnto(s', t, c)
      ensures WakingOnto(s, t, c)
    {}
  }

  lemma CalmOwnKernel(s: State, step: Step)
    requires Inv(s) && Enabled(s, step) && (step.Irq? || step.Activate?)
    requires step.c < |s.cpus| && CalmCpu(s, step.c)
    ensures step.c < |Apply(s, step).cpus| && CalmCpu(Apply(s, step), step.c)
  {
    var c, s' := step.c, Apply(s, step);
    assert CpuOk(s, c);
    if step.Activate? {
      assert WakingOnto(s, step.t, c);
    }
    forall t | WakingOnto(s', t, c)
      ensures WakingOnto(s, t, c)
    {}
  }

  lemma CalmOwnSwitch(s: State, step: Step)
    requires Inv(s) && Enabled(s, step) && (step.CallSleep? || step.ReadPark? || step.Resched?)
    requires step.c < |s.cpus| && CalmCpu(s, step.c)
    ensures step.c < |Apply(s, step).cpus| && CalmCpu(Apply(s, step), step.c)
  {
    var c, s' := step.c, Apply(s, step);
    assert CpuOk(s, c);
    TakesUpExit(s, step);
    forall t | WakingOnto(s', t, c)
      ensures WakingOnto(s, t, c)
    {}
  }

  lemma TakesUpExit(s: State, step: Step)
    requires Inv(s) && Enabled(s, step) && (step.CallSleep? || step.ReadPark? || step.Resched?) && step.c < |s.cpus|
    ensures Running(Apply(s, step), step.c) ==> Curr(Apply(s, step), step.c).pc.Exit?
  {
    assert CpuOk(s, step.c);
    if step.pick != -1 && (!Running(s, step.c) || step.pick != s.cpus[step.c].curr) {
      NotCurrentAnywhere(s, step.c, step);
    }
  }

  /** What a CPU takes up next was on its way back to user mode. */
  lemma NotCurrentAnywhere(s: State, c: nat, step: Step)
    requires Inv(s) && Enabled(s, step) && (step.CallSleep? || step.ReadPark? || step.Resched?)
    requires c < |s.cpus| && step.c == c && step.pick != -1 && (!Running(s, c) || step.pick != s.cpus[c].curr)
    ensures TaskId(s, step.pick) && s.tasks[step.pick].pc.Exit?
  {
    assert CpuOk(s, c) && TaskOk(s, step.pick);
  }

  lemma CalmElsewhere(s: State, step: Step, c: nat)
    requires Inv(s) && Enabled(s, step) && Internal(step) && !step.CallWake? && c < |s.cpus| && step.c != c && CalmCpu(s, c)
    ensures c < |Apply(s, step).cpus| && CalmCpu(Apply(s, step), c)
  {
    var s' := Apply(s, step);
    assert CpuOk(s, c);
    if Running(s, c) {
      assert TaskOk(s, s.cpus[c].curr);
      OnlyThere(s, c);
    }
    StepsApart(s, step, c);
    forall t | WakingOnto(s', t, c)
      ensures WakingOnto(s, t, c)
    {}
  }

  lemma CalmStays(s: State, step: Step)
    requires Inv(s) && Calm(s) && Enabled(s, step) && Internal(step)
    ensures Calm(Apply(s, step)) && !step.CallWake?
  {
    CalmNeverWakes(s, step);
    if NoneOwes(s, CHAN_WRITE) {
      NoneOwesStays(s, step, CHAN_WRITE);
    }
    if NoReaders(s) {
      NoReadersStays(s, step);
    }
    if OnlyWrites(s) {
      OnlyWritesStays(s, step);
    }
    InternalKeepsCtrl(s, step);
    forall c | 0 <= c < |s.cpus|
      ensures CalmCpu(Apply(s, step), c)
    {
      assert CalmCpu(s, c);
      if c != step.c {
        CalmElsewhere(s, step, c);
      } else if step.CallSleep? || step.ReadPark? || step.Resched? {
        CalmOwnSwitch(s, step);
      } else if step.Irq? || step.Activate? {
        CalmOwnKernel(s, step);
      } else {
        CalmOwnLoop(s, step);
      }
    }
  }

  // ---- a call, from its controller step to its return ----

  /** No CPU has a step of its own. */
  ghost predicate Still(s: State) {
    && (forall t :: TaskId(s, t) ==> s.tasks[t].run != Waking)
    && (forall c :: 0 <= c < |s.cpus| ==> !s.cpus[c].resched && !s.cpus[c].irq)
    && (forall c :: Running(s, c) ==> Curr(s, c).pc == Halted)
  }

  /** What may happen once the call has acted: its kick, its polls, and anything internal. */
  predicate Rest(step: Step) { Internal(step) || step.Kick? || step.Kicked? || step.Poll? }

  ghost predicate AllRest(steps: seq<Step>) { forall i :: 0 <= i < |steps| ==> Rest(steps[i]) }

  ghost predicate AllSettled(s: State) { forall c :: TestCpu(s, c) ==> CpuSettled(s, c) }

  /** The call is over after steps: its pass has been round. */
  ghost predicate Returns(s: State, steps: seq<Step>) {
    RunFrom(s, steps) && AllRest(steps) && Enabled(After(s, steps), SettleDone)
  }

  /** However the machine runs on, the call returns only with every test CPU settled at once. */
  ghost predicate SettlesAll(s: State) { forall steps :: Returns(s, steps) ==> AllSettled(After(s, steps)) }

  ghost predicate InCall(s: State) {
    && Inv(s) && Calm(s)
    && (s.ctrl.Posted? || s.ctrl.Kicking? || s.ctrl.Settling?)
    && (s.ctrl.Posted? ==> Still(s) && TaskId(s, s.ctrl.t) && s.tasks[s.ctrl.t].q != [])
    && (s.ctrl.Settling? ==> PassedQuiet(s))
  }

  lemma StillTakesNoStep(s: State, step: Step)
    requires Inv(s) && Still(s) && Enabled(s, step)
    ensures !Internal(step)
  {
    assert forall c :: 0 <= c < |s.cpus| ==> CpuOk(s, c);
  }

  lemma KickStays(s: State)
    requires InCall(s) && Enabled(s, Kick)
    ensures InCall(Apply(s, Kick))
  {
    var s', t := Apply(s, Kick), s.ctrl.t;
    assert TaskOk(s, t);
    StepKeepsInv(s, Kick);
    CalmButIrq(s, s', s.tasks[t].cpu);
  }

  /** An interrupt on its way to a halted task with something to do, or nothing new at all. */
  lemma CalmButIrq(s: State, s': State, c: nat)
    requires Inv(s) && Calm(s)
    requires s'.tasks == s.tasks && |s'.cpus| == |s.cpus|
    requires s'.cpus == s.cpus ||
      (c < |s.cpus| && s'.cpus == s.cpus[c := s.cpus[c].(irq := true)] && Running(s, c) && Curr(s, c).pc == Halted && Undone(Curr(s, c)))
    ensures Calm(s')
  {
    forall d | 0 <= d < |s'.cpus|
      ensures CalmCpu(s', d)
    {
      assert CalmCpu(s, d);
      forall t | WakingOnto(s', t, d)
        ensures WakingOnto(s, t, d)
      {}
    }
    SameTasksSameWakeups(s, s');
  }

  lemma SameTasksSameWakeups(s: State, s': State)
    requires s'.tasks == s.tasks && |s'.cpus| == |s.cpus|
    requires forall d :: 0 <= d < |s.cpus| ==> s'.cpus[d].curr == s.cpus[d].curr && s'.cpus[d].resched == s.cpus[d].resched
    ensures NoneOwes(s, CHAN_WRITE) ==> NoneOwes(s', CHAN_WRITE)
    ensures NoReaders(s) ==> NoReaders(s')
    ensures OnlyWrites(s) ==> OnlyWrites(s')
  {
    forall t
      ensures ReaderAsleep(s', t) <==> ReaderAsleep(s, t)
      ensures TaskId(s', t) <==> TaskId(s, t)
    {}
    forall d | Running(s', d)
      ensures Running(s, d) && Curr(s', d) == Curr(s, d)
    {}
  }

  /** What nobody owes, and that nobody reads, outlast every step of a call. */
  lemma WakeupsStay(s: State, step: Step)
    requires Enabled(s, step) && Rest(step)
    ensures NoneOwes(s, CHAN_WRITE) ==> NoneOwes(Apply(s, step), CHAN_WRITE)
    ensures NoReaders(s) ==> NoReaders(Apply(s, step))
  {
    if !Internal(step) {
      SameTasksSameWakeups(s, Apply(s, step));
    } else {
      if NoneOwes(s, CHAN_WRITE) {
        NoneOwesStays(s, step, CHAN_WRITE);
      }
      if NoReaders(s) {
        NoReadersStays(s, step);
      }
    }
  }

  lemma RestStays(s: State, step: Step)
    requires InCall(s) && Enabled(s, step) && Rest(step)
    ensures InCall(Apply(s, step))
  {
    var s' := Apply(s, step);
    if Internal(step) {
      if s.ctrl.Posted? {
        StillTakesNoStep(s, step);
      }
      CalmStays(s, step);
      InternalKeepsCtrl(s, step);
      StepKeepsInv(s, step);
      if s.ctrl.Settling? {
        PassStep(s, step);
      }
    } else {
      match step
      case Kick => KickStays(s);
      case Kicked =>
        StepKeepsInv(s, step);
        CalmButIrq(s, s', s.ctrl.c);
      case Poll =>
        CalmSettledIsQuiet(s, s.ctrl.c);
        PassStep(s, step);
        CalmButIrq(s, s', s.ctrl.c);
    }
  }

  lemma {:induction false} CallSettles(s: State, steps: seq<Step>)
    requires InCall(s) && RunFrom(s, steps) && AllRest(steps)
    ensures InCall(After(s, steps))
    ensures NoneOwes(s, CHAN_WRITE) ==> NoneOwes(After(s, steps), CHAN_WRITE)
    ensures NoReaders(s) ==> NoReaders(After(s, steps))
    decreases |steps|
  {
    if steps != [] {
      assert Rest(steps[0]);
      RestStays(s, steps[0]);
      WakeupsStay(s, steps[0]);
      CallSettles(Apply(s, steps[0]), steps[1..]);
    }
  }

  lemma PassedIsSettled(s: State)
    requires PassedQuiet(s) && s.ctrl.c >= |s.cpus|
    ensures AllSettled(s)
  {
    assert forall c :: TestCpu(s, c) ==> Quiet(s, c);
  }

  /** From a calm state one pass is enough, whatever is under way when it begins. */
  lemma CalmPassSettlesAll(s: State)
    requires InCall(s)
    ensures SettlesAll(s)
  {
    forall steps | Returns(s, steps)
      ensures AllSettled(After(s, steps))
    {
      CallSettles(s, steps);
      PassedIsSettled(After(s, steps));
    }
  }

  // ---- a CPU that tests settled without being quiet ----

  lemma FailsNow(s: State)
    requires Enabled(s, SettleDone) && !AllSettled(s)
    ensures !SettlesAll(s)
  {
    assert Returns(s, []);
  }

  lemma FailsBefore(s: State, step: Step)
    requires Enabled(s, step) && Rest(step) && !SettlesAll(Apply(s, step))
    ensures !SettlesAll(s)
  {
    var s1 := Apply(s, step);
    var rest :| Returns(s1, rest) && !AllSettled(After(s1, rest));
    Then(s, step, rest);
    assert Returns(s, [step] + rest);
  }

  /** A step of the CPU being polled, or its poll, leaves another CPU's task alone. */
  lemma PolledApart(s: State, step: Step, c: nat)
    requires Inv(s) && s.ctrl.Settling? && TestCpu(s, c) && s.ctrl.c != c && Enabled(s, step)
    requires step == Poll || OwnStepOf(step, s.ctrl.c)
    ensures var s' := Apply(s, step);
      && |s'.cpus| == |s.cpus| && s'.cpus[c] == s.cpus[c] && (Running(s, c) ==> Running(s', c) && Curr(s', c) == Curr(s, c))
      && (CpuSettled(s, c) && Running(s, c) ==> CpuSettled(s', c))
  {
    assert CpuOk(s, c);
    if step != Poll {
      if Running(s, c) {
        assert TaskOk(s, s.cpus[c].curr);
        OnlyThere(s, c);
      }
      StepsApart(s, step, c);
      InternalKeepsTasks(s, step);
    }
  }

  /** The next step of a pass that lets CPU c be: the poll, or a step towards it. */
  lemma PassOn(s: State) returns (step: Step)
    requires Inv(s) && s.ctrl.Settling? && TestCpu(s, s.ctrl.c)
    ensures Enabled(s, step) && Rest(step) && (step == Poll || OwnStepOf(step, s.ctrl.c))
    ensures var s' := Apply(s, step);
      && Inv(s') && |s'.cpus| == |s.cpus| && s'.ctrl == (if step == Poll then Settling(s.ctrl.c + 1) else s.ctrl)
      && (step != Poll ==> Weight(s') < Weight(s))
  {
    if CpuSettled(s, s.ctrl.c) {
      step := Poll;
      StepKeepsInv(s, step);
    } else {
      step := Progress(s, s.ctrl.c);
      InternalKeepsCtrl(s, step);
    }
  }

  /** A task between its halt and its next read, on a CPU already passed, can stay there to the end. */
  lemma {:induction false} PassedUnsettledFails(s: State, c: nat)
    requires Inv(s) && s.ctrl.Settling? && TestCpu(s, c) && c < s.ctrl.c && Running(s, c) && !Curr(s, c).settled
    ensures !SettlesAll(s)
    decreases |s.cpus| - s.ctrl.c, Weight(s)
  {
    if s.ctrl.c >= |s.cpus| {
      FailsNow(s);
    } else {
      var step := PassOn(s);
      PolledApart(s, step, c);
      PassedUnsettledFails(Apply(s, step), c);
      FailsBefore(s, step);
    }
  }

  lemma LetOutFails(s: State, c: nat)
    requires Inv(s) && s.ctrl.Settling? && TestCpu(s, c) && c < s.ctrl.c && At(s, c, AfterHalt)
    ensures !SettlesAll(s)
  {
    assert CpuOk(s, c);
    StepKeepsInv(s, Resume(c));
    PassedUnsettledFails(Apply(s, Resume(c)), c);
    FailsBefore(s, Resume(c));
  }

  lemma InterruptedFails(s: State, c: nat)
    requires Inv(s) && s.ctrl.Settling? && TestCpu(s, c) && c < s.ctrl.c && At(s, c, Halted) && s.cpus[c].irq
    ensures !SettlesAll(s)
  {
    assert CpuOk(s, c);
    StepKeepsInv(s, Irq(c));
    LetOutFails(Apply(s, Irq(c)), c);
    FailsBefore(s, Irq(c));
  }

  lemma PolledUnquietFails(s: State, c: nat)
    requires Inv(s) && s.ctrl == Settling(c) && TestCpu(s, c) && CpuSettled(s, c) && !Quiet(s, c)
    ensures !SettlesAll(s)
  {
    StepKeepsInv(s, Poll);
    assert CpuOk(s, c) && TaskOk(s, s.cpus[c].curr);
    if Curr(s, c).pc == AfterHalt {
      LetOutFails(Apply(s, Poll), c);
    } else {
      InterruptedFails(Apply(s, Poll), c);
    }
    FailsBefore(s, Poll);
  }

  /** If any CPU not yet polled tests settled but is not really in the halt, or has an interrupt in flight,
      the pass can return with that CPU unsettled. */
  lemma {:induction false} UnquietPassFails(s: State, c: nat)
    requires Inv(s) && s.ctrl.Settling? && TestCpu(s, c) && s.ctrl.c <= c && CpuSettled(s, c) && !Quiet(s, c)
    ensures !SettlesAll(s)
    decreases |s.cpus| - s.ctrl.c, Weight(s)
  {
    if s.ctrl.c == c {
      PolledUnquietFails(s, c);
    } else {
      var step := PassOn(s);
      PolledApart(s, step, c);
      UnquietPassFails(Apply(s, step), c);
      FailsBefore(s, step);
    }
  }

  // ---- and the call does return ----

  lemma ReturnsBefore(s: State, step: Step)
    requires Enabled(s, step) && Rest(step) && exists rest :: Returns(Apply(s, step), rest)
    ensures exists steps :: Returns(s, steps)
  {
    var rest :| Returns(Apply(s, step), rest);
    Then(s, step, rest);
    assert Returns(s, [step] + rest);
  }

  lemma {:induction false} PassReturns(s: State)
    requires Inv(s) && s.ctrl.Settling?
    ensures exists steps :: Returns(s, steps)
    decreases |s.cpus| - s.ctrl.c, Weight(s)
  {
    if s.ctrl.c >= |s.cpus| {
      assert Returns(s, []);
    } else {
      var step := PassOn(s);
      PassReturns(Apply(s, step));
      ReturnsBefore(s, step);
    }
  }

  lemma KickingReturns(s: State)
    requires InCall(s) && s.ctrl.Kicking?
    ensures exists steps :: Returns(s, steps)
  {
    var c := s.ctrl.c;
    if s.cpus[c].irq {
      assert CalmCpu(s, c);
      RestStays(s, Irq(c));
      InternalKeepsCtrl(s, Irq(c));
      var s1 := Apply(s, Irq(c));
      RestStays(s1, Kicked);
      PassReturns(Apply(s1, Kicked));
      ReturnsBefore(s1, Kicked);
      ReturnsBefore(s, Irq(c));
    } else {
      RestStays(s, Kicked);
      PassReturns(Apply(s, Kicked));
      ReturnsBefore(s, Kicked);
    }
  }

  /** Some schedule takes any such call to its return. */
  lemma CallReturns(s: State)
    requires InCall(s)
    ensures exists steps :: Returns(s, steps)
  {
    if s.ctrl.Posted? {
      assert TaskOk(s, s.ctrl.t);
      RestStays(s, Kick);
      var s1 := Apply(s, Kick);
      if s1.ctrl.Kicking? {
        KickingReturns(s1);
      } else {
        PassReturns(s1);
      }
      ReturnsBefore(s, Kick);
    } else if s.ctrl.Kicking? {
      KickingReturns(s);
    } else {
      PassReturns(s);
    }
  }
}
