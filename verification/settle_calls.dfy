/** A call of the controller between two others, from its first step to the return of its settle: the exact
    conditions on the state before it under which every test CPU is settled at once when it returns, for an
    action asked of a task, for a wakeup and for a tick. */
module SettleCalls {
  import opened Control
  import opened Settle
  import opened SettleSpin
  import opened SettlePass
  import opened SettleCalm

  // ---- between calls ----

  /** Between calls: every CPU quiet with no interrupt in flight, and the controller's own idle. */
  ghost predicate AtRest(s: State) {
    && Inv(s) && s.ctrl == Ready
    && (forall c :: 0 <= c < |s.cpus| ==> Quiet(s, c) && !s.cpus[c].irq)
    && (|s.cpus| > 0 ==> s.cpus[0].curr == -1)
  }

  /** And nobody has a write of the channel still to do. */
  ghost predicate Resting(s: State) { AtRest(s) && NoneOwes(s, CHAN_WRITE) }

  lemma AtRestIsStill(s: State)
    requires AtRest(s)
    ensures Still(s) && forall c :: 0 <= c < |s.cpus| ==> CalmCpu(s, c)
    ensures forall t :: TaskId(s, t) ==> s.tasks[t].run != Waking
  {
    forall t | TaskId(s, t)
      ensures s.tasks[t].run != Waking
    {
      assert TaskOk(s, t) && Quiet(s, s.tasks[t].cpu);
    }
    forall c | 0 <= c < |s.cpus|
      ensures CalmCpu(s, c) && !s.cpus[c].resched
    {
      assert Quiet(s, c);
    }
    forall c | Running(s, c)
      ensures Curr(s, c).pc == Halted
    {
      assert Quiet(s, c);
    }
  }

  // ---- an action ----

  predicate Current(s: State, t: int) { TaskId(s, t) && s.tasks[t].cpu < |s.cpus| && s.cpus[s.tasks[t].cpu].curr == t }

  /** The action wakes a reader: its target is at its read, and writes while a reader sleeps. */
  ghost predicate WritesToASleeper(s: State, t: nat, act: Act) {
    act == CHAN_WRITE && Current(s, t) && exists r :: ReaderAsleep(s, r)
  }

  /** What may be asked of a task at its read without anybody waking a reader. */
  ghost predicate AskIsPeaceful(s: State, act: Act) {
    (NoReaders(s) && act != CHAN_READ)
    || (if act == CHAN_WRITE then forall r :: !ReaderAsleep(s, r) else NoneOwes(s, CHAN_WRITE))
  }

  lemma PutIsCalm(s: State, t: nat, act: Act)
    requires AtRest(s) && Enabled(s, Put(t, act)) && AskIsPeaceful(s, act)
    ensures InCall(Apply(s, Put(t, act)))
  {
    var s1 := Apply(s, Put(t, act));
    AtRestIsStill(s);
    PutStaysStill(s, t, act);
    forall c | 0 <= c < |s1.cpus|
      ensures CalmCpu(s1, c)
    {
      assert CalmCpu(s, c);
    }
    if act == CHAN_WRITE && forall r :: !ReaderAsleep(s, r) {
      PutOnlyWrites(s, t);
    } else if NoReaders(s) && act != CHAN_READ {
      PutOwesNothing(s, t, act, CHAN_READ);
      forall r
        ensures !ReaderAsleep(s1, r)
      {
        assert !ReaderAsleep(s, r);
      }
    } else {
      PutOwesNothing(s, t, act, CHAN_WRITE);
    }
  }

  lemma PutOwesNothing(s: State, t: nat, act: Act, other: Act)
    requires Enabled(s, Put(t, act)) && NoneOwes(s, other) && act != other
    ensures NoneOwes(Apply(s, Put(t, act)), other)
  {
    var s1 := Apply(s, Put(t, act));
    forall u | TaskId(s1, u)
      ensures !Owes(s1.tasks[u], other)
    {
      assert !Owes(s.tasks[u], other);
    }
  }

  lemma PutOnlyWrites(s: State, t: nat)
    requires AtRest(s) && Enabled(s, Put(t, CHAN_WRITE)) && forall r :: !ReaderAsleep(s, r)
    ensures OnlyWrites(Apply(s, Put(t, CHAN_WRITE)))
  {
    var s1 := Apply(s, Put(t, CHAN_WRITE));
    AtRestIsStill(s);
    forall r
      ensures !ReaderAsleep(s1, r)
    {
      assert !ReaderAsleep(s, r);
    }
    forall c | Running(s1, c)
      ensures Writes(Curr(s1, c))
    {
      assert Quiet(s, c);
    }
  }

  lemma PutStaysStill(s: State, t: nat, act: Act)
    requires AtRest(s) && Enabled(s, Put(t, act))
    ensures var s1 := Apply(s, Put(t, act));
      Inv(s1) && Still(s1) && s1.cpus == s.cpus && !InWindow(s, t)
  {
    AtRestIsStill(s);
    var s1 := Apply(s, Put(t, act));
    assert TaskOk(s, t);
    if Current(s, t) {
      assert Running(s, s.tasks[t].cpu);
    }
    PutKeeps(s, t, act);
    forall c | Running(s1, c)
      ensures Curr(s1, c).pc == Halted
    {
      assert Running(s, c);
    }
  }

  /** Nothing moves, and there is nothing to let out of a halt. */
  ghost predicate Idles(s: State) {
    && Inv(s) && Still(s)
    && (forall c :: 0 <= c < |s.cpus| ==> Quiet(s, c))
    && (s.ctrl.Settling? || (s.ctrl.Posted? && TaskId(s, s.ctrl.t) && !s.tasks[s.ctrl.t].settled))
  }

  /** The controller has moved on, or a task that does not run has one more thing to do. */
  lemma QuietElsewhere(s: State, s': State, c: nat)
    requires s'.cpus == s.cpus && |s'.tasks| == |s.tasks| && c < |s.cpus| && Quiet(s, c)
    requires forall t :: TaskId(s, t) ==> s'.tasks[t].run == s.tasks[t].run && s'.tasks[t].cpu == s.tasks[t].cpu
    requires Running(s, c) ==> s'.tasks[s.cpus[c].curr] == Curr(s, c)
    ensures Quiet(s', c)
  {
    assert forall t :: QueuedOn(s', t, c) <==> QueuedOn(s, t, c);
  }

  lemma {:induction false} IdleCallSettles(s: State, steps: seq<Step>)
    requires Idles(s) && RunFrom(s, steps) && AllRest(steps)
    ensures var s' := After(s, steps); Idles(s') && s'.tasks == s.tasks && s'.cpus == s.cpus
    decreases |steps|
  {
    if steps != [] {
      var step, s1 := steps[0], Apply(s, steps[0]);
      assert Rest(step);
      StillTakesNoStep(s, step);
      StepKeepsInv(s, step);
      assert s1.tasks == s.tasks && s1.cpus == s.cpus;
      forall c | 0 <= c < |s1.cpus|
        ensures Quiet(s1, c)
      {
        QuietElsewhere(s, s1, c);
      }
      forall c | Running(s1, c)
        ensures Curr(s1, c).pc == Halted
      {
        assert Running(s, c);
      }
      IdleCallSettles(s1, steps[1..]);
    }
  }

  lemma AskIdles(s: State, t: nat, act: Act)
    requires AtRest(s) && Enabled(s, Put(t, act)) && !Current(s, t)
    ensures Idles(Apply(s, Put(t, act))) && Apply(s, Put(t, act)).cpus == s.cpus
  {
    var s1 := Apply(s, Put(t, act));
    PutStaysStill(s, t, act);
    assert TaskOk(s, t);
    forall c | 0 <= c < |s1.cpus|
      ensures Quiet(s1, c)
    {
      assert CpuOk(s, c);
      QuietElsewhere(s, s1, c);
    }
  }

  lemma AskOfOneNotRunning(s: State, t: nat, act: Act)
    requires AtRest(s) && Enabled(s, Put(t, act)) && !Current(s, t)
    ensures SettlesAll(Apply(s, Put(t, act)))
  {
    var s1 := Apply(s, Put(t, act));
    AskIdles(s, t, act);
    forall steps | Returns(s1, steps)
      ensures AllSettled(After(s1, steps))
    {
      IdleCallSettles(s1, steps);
      assert forall c :: TestCpu(After(s1, steps), c) ==> Quiet(After(s1, steps), c);
    }
  }

  /** The writer on w is at pc with q still to do, and nothing but its own steps is coming up there. */
  ghost predicate Writer(s: State, w: nat, pc: Pc, q: seq<Act>) {
    && Inv(s) && s.ctrl == Settling(1) && TestCpu(s, w)
    && Running(s, w) && Curr(s, w).pc == pc && Curr(s, w).q == q && !Curr(s, w).sig
    && !s.cpus[w].resched && !s.cpus[w].irq
  }

  lemma ArrivalFails(s: State, w: nat, r: nat)
    requires Writer(s, w, Halted, [])
    requires WakingOnto(s, r, w) && forall u :: WakingOnto(s, u, w) ==> u == r
    ensures !SettlesAll(s)
  {
    assert CpuOk(s, w) && TaskOk(s, s.cpus[w].curr);
    var step := Activate(w, r, false);
    StepKeepsInv(s, step);
    var s' := Apply(s, step);
    assert s'.cpus[w].curr == s.cpus[w].curr != r && Curr(s', w) == Curr(s, w).(pc := AfterHalt);
    forall u | TaskId(s', u) && s'.tasks[u].cpu == w
      ensures s'.tasks[u].run != Waking
    {
      assert WakingOnto(s, u, w) ==> u == r;
    }
    UnquietPassFails(s', w);
    FailsBefore(s, step);
  }

  /** The reader it wakes onto its own CPU arrives when the writer is back in its halt. */
  lemma {:induction false} WroteFails(s: State, w: nat, pc: Pc, r: nat)
    requires Writer(s, w, pc, []) && pc in {Exit(NONE), User(NONE), Take, IrqOff, Halted}
    requires WakingOnto(s, r, w) && forall u :: WakingOnto(s, u, w) ==> u == r
    ensures !SettlesAll(s)
    decreases match pc case Exit(_) => 4 case User(_) => 3 case Take => 2 case IrqOff => 1 case _ => 0
  {
    if pc == Halted {
      ArrivalFails(s, w, r);
    } else {
      assert CpuOk(s, w);
      var (step, next) :=
        match pc
        case Exit(_) => (Leave(w), User(NONE))
        case User(_) => (Call(w), Take)
        case Take => (Read(w), IrqOff)
        case _ => (Check(w), Halted);
      StepKeepsInv(s, step);
      var s' := Apply(s, step);
      assert forall u :: WakingOnto(s', u, w) ==> WakingOnto(s, u, w);
      WroteFails(s', w, next, r);
      FailsBefore(s, step);
    }
  }

  lemma WriteFails(s: State, w: nat, r: nat)
    requires Writer(s, w, User(CHAN_WRITE), []) && ReaderAsleep(s, r) && forall u :: !WakingOnto(s, u, w)
    ensures !SettlesAll(s)
  {
    assert CpuOk(s, w);
    var step := CallWake(w, r, w);
    StepKeepsInv(s, step);
    var s' := Apply(s, step);
    assert forall u :: WakingOnto(s', u, w) ==> WakingOnto(s, u, w) || u == r;
    WroteFails(s', w, Exit(NONE), r);
    FailsBefore(s, step);
  }

  lemma {:induction false} WriterFails(s: State, w: nat, pc: Pc, q: seq<Act>, r: nat)
    requires Writer(s, w, pc, q)
    requires (pc, q) in {(AfterHalt, [CHAN_WRITE]), (Exit(NONE), [CHAN_WRITE]), (User(NONE), [CHAN_WRITE]), (Take, [CHAN_WRITE]),
                         (Exit(CHAN_WRITE), []), (User(CHAN_WRITE), [])}
    requires ReaderAsleep(s, r) && forall u :: !WakingOnto(s, u, w)
    ensures !SettlesAll(s)
    decreases |q|, match pc case AfterHalt => 4 case Exit(_) => 3 case User(_) => 2 case _ => 1
  {
    if pc == User(CHAN_WRITE) {
      WriteFails(s, w, r);
    } else {
      assert CpuOk(s, w);
      var (step, next, rest) :=
        match pc
        case AfterHalt => (Resume(w), Exit(NONE), q)
        case Exit(a) => (Leave(w), User(a), q)
        case User(_) => (Call(w), Take, q)
        case _ => (Read(w), Exit(CHAN_WRITE), []);
      StepKeepsInv(s, step);
      var s' := Apply(s, step);
      assert forall u :: WakingOnto(s', u, w) ==> WakingOnto(s, u, w);
      WriterFails(s', w, next, rest, r);
      FailsBefore(s, step);
    }
  }

  lemma KickedWriterFails(s: State, w: nat, r: nat)
    requires Inv(s) && s.ctrl == Kicking(w) && TestCpu(s, w) && !s.cpus[w].resched && s.cpus[w].irq
    requires Running(s, w) && Curr(s, w).pc == Halted && Curr(s, w).q == [CHAN_WRITE] && !Curr(s, w).sig
    requires ReaderAsleep(s, r) && forall u :: !WakingOnto(s, u, w)
    ensures !SettlesAll(s)
  {
    assert CpuOk(s, w);
    StepKeepsInv(s, Irq(w));
    var s1 := Apply(s, Irq(w));
    StepKeepsInv(s1, Kicked);
    var s2 := Apply(s1, Kicked);
    assert forall u :: WakingOnto(s2, u, w) ==> WakingOnto(s, u, w);
    WriterFails(s2, w, AfterHalt, [CHAN_WRITE], r);
    FailsBefore(s1, Kicked);
    FailsBefore(s, Irq(w));
  }

  lemma AskedWriterFails(s: State, t: nat, r: nat)
    requires Resting(s) && Enabled(s, Put(t, CHAN_WRITE)) && Current(s, t) && ReaderAsleep(s, r)
    ensures !SettlesAll(Apply(s, Put(t, CHAN_WRITE)))
  {
    var w := s.tasks[t].cpu;
    AtRestIsStill(s);
    PutStaysStill(s, t, CHAN_WRITE);
    assert Quiet(s, w) && CpuOk(s, w) && TaskOk(s, t);
    var s1 := Apply(s, Put(t, CHAN_WRITE));
    assert s1.tasks[t].q == [CHAN_WRITE];
    StepKeepsInv(s1, Kick);
    var s2 := Apply(s1, Kick);
    assert forall u :: !WakingOnto(s2, u, w);
    assert ReaderAsleep(s2, r);
    KickedWriterFails(s2, w, r);
    FailsBefore(s1, Kick);
  }

  /** An action asked between calls returns with every test CPU settled at once, however the machine runs, if
      and only if it is not a write that wakes a sleeping reader. */
  lemma AskSettlesExactly(s: State, t: nat, act: Act)
    requires Resting(s) && Enabled(s, Put(t, act))
    ensures SettlesAll(Apply(s, Put(t, act))) <==> !WritesToASleeper(s, t, act)
  {
    if WritesToASleeper(s, t, act) {
      var r :| ReaderAsleep(s, r);
      AskedWriterFails(s, t, r);
    } else if !Current(s, t) {
      AskOfOneNotRunning(s, t, act);
    } else {
      PutIsCalm(s, t, act);
      CalmPassSettlesAll(Apply(s, Put(t, act)));
    }
  }

  // ---- a wakeup ----

  /** Nobody can wake a reader, and no action but a read changes that. */
  ghost predicate Peaceful(s: State) { NoneOwes(s, CHAN_WRITE) || NoReaders(s) }

  lemma SignalOwesNothing(s: State, t: nat, home: nat)
    requires Enabled(s, Signal(t, home))
    ensures NoneOwes(s, CHAN_WRITE) ==> NoneOwes(Apply(s, Signal(t, home)), CHAN_WRITE)
    ensures NoReaders(s) ==> NoReaders(Apply(s, Signal(t, home)))
  {
    var s1 := Apply(s, Signal(t, home));
    forall u | TaskId(s1, u)
      ensures Owes(s1.tasks[u], CHAN_WRITE) ==> Owes(s.tasks[u], CHAN_WRITE)
      ensures Owes(s1.tasks[u], CHAN_READ) ==> Owes(s.tasks[u], CHAN_READ)
      ensures ReaderAsleep(s1, u) ==> ReaderAsleep(s, u)
    {}
  }

  lemma SignalCpuIsCalm(s: State, t: nat, home: nat, c: nat)
    requires AtRest(s) && Enabled(s, Signal(t, home)) && (s.tasks[t].pc.Asleep? ==> s.cpus[home].curr == -1) && c < |s.cpus|
    ensures c < |Apply(s, Signal(t, home)).cpus| && CalmCpu(Apply(s, Signal(t, home)), c)
  {
    var s1 := Apply(s, Signal(t, home));
    assert TaskOk(s, t) && CpuOk(s, c) && Quiet(s, c);
    forall u | WakingOnto(s1, u, c)
      ensures u == t && c == home && s.tasks[t].pc.Asleep?
    {
      assert !WakingOnto(s, u, c);
    }
  }

  lemma SignalIsCalm(s: State, t: nat, home: nat)
    requires AtRest(s) && Peaceful(s) && Enabled(s, Signal(t, home)) && (s.tasks[t].pc.Asleep? ==> s.cpus[home].curr == -1)
    ensures InCall(Apply(s, Signal(t, home)))
  {
    var s1 := Apply(s, Signal(t, home));
    StepKeepsInv(s, Signal(t, home));
    SignalOwesNothing(s, t, home);
    forall c | 0 <= c < |s1.cpus|
      ensures CalmCpu(s1, c)
    {
      SignalCpuIsCalm(s, t, home, c);
    }
  }

  lemma SignalOntoARunnerFails(s: State, t: nat, home: nat)
    requires Resting(s) && Enabled(s, Signal(t, home)) && s.tasks[t].pc.Asleep? && s.cpus[home].curr != -1
    ensures !SettlesAll(Apply(s, Signal(t, home)))
  {
    var s1, step := Apply(s, Signal(t, home)), Activate(home, t, false);
    AtRestIsStill(s);
    assert Quiet(s, home) && CpuOk(s, home) && TaskOk(s, t) && TaskOk(s, s.cpus[home].curr);
    StepKeepsInv(s, Signal(t, home));
    StepKeepsInv(s1, step);
    var s2 := Apply(s1, step);
    UnquietPassFails(s2, home);
    FailsBefore(s1, step);
  }

  /** A wakeup between calls returns with every test CPU settled at once, however the machine runs, if and only
      if its target does not wake onto a CPU that runs another task. Where it wakes is the kernel's choice: a
      caller can rely on it only if the target is awake, or no test CPU that it may land on runs a task. */
  lemma WakeupSettlesExactly(s: State, t: nat, home: nat)
    requires Resting(s) && Enabled(s, Signal(t, home))
    ensures SettlesAll(Apply(s, Signal(t, home))) <==> !(s.tasks[t].pc.Asleep? && s.cpus[home].curr != -1)
  {
    if s.tasks[t].pc.Asleep? && s.cpus[home].curr != -1 {
      SignalOntoARunnerFails(s, t, home);
    } else {
      SignalIsCalm(s, t, home);
      CalmPassSettlesAll(Apply(s, Signal(t, home)));
    }
  }

  // ---- a tick ----

  /** kstep_tick's ticks: each test CPU's in turn, from CPU c on, and whatever happens in between. */
  ghost predicate Ticks(steps: seq<Step>, c: nat, n: nat)
    decreases |steps|
  {
    if steps == [] then c >= n
    else if Internal(steps[0]) then Ticks(steps[1..], c, n)
    else steps[0].Tick? && steps[0].c == c < n && Ticks(steps[1..], c + 1, n)
  }

  /** The settle behind the ticks returns only with every test CPU settled at once. */
  ghost predicate TickSettles(s: State) {
    forall steps :: RunFrom(s, steps) && Ticks(steps, 1, |s.cpus|) && After(s, steps).ctrl == Ready ==>
      SettlesAll(Apply(After(s, steps), SettleStart))
  }

  lemma {:induction false} IdleTicksDoNothing(s: State, steps: seq<Step>, c: nat)
    requires AtRest(s) && (forall d :: TestCpu(s, d) ==> s.cpus[d].curr == -1)
    requires 1 <= c && RunFrom(s, steps) && Ticks(steps, c, |s.cpus|)
    ensures After(s, steps) == s
    decreases |steps|
  {
    if steps != [] {
      AtRestIsStill(s);
      StillTakesNoStep(s, steps[0]);
      assert Apply(s, steps[0]).cpus == s.cpus;
      assert Apply(s, steps[0]) == s;
      IdleTicksDoNothing(s, steps[1..], c + 1);
    }
  }

  /** Tasks on the CPUs below c have been let out of their halts by the tick, the rest are still in them. */
  ghost predicate TickedTo(s: State, c: nat) {
    && Inv(s) && s.ctrl == Ready
    && (forall t :: TaskId(s, t) ==> s.tasks[t].run != Waking)
    && (forall d :: 0 <= d < |s.cpus| ==> !s.cpus[d].resched && !s.cpus[d].irq && (s.cpus[d].curr == -1 ==> Empty(s, d)))
    && (forall d :: TestCpu(s, d) && Running(s, d) ==>
         !Undone(Curr(s, d)) && Curr(s, d).pc == if d < c then AfterHalt else Halted)
  }

  lemma OneTick(s: State, c: nat)
    requires TickedTo(s, c) && TestCpu(s, c)
    ensures Enabled(s, Tick(c, false)) && TickedTo(Apply(s, Tick(c, false)), c + 1)
    ensures var s' := Apply(s, Tick(c, false));
      |s'.cpus| == |s.cpus| && forall d :: 0 <= d < |s.cpus| ==> s'.cpus[d].curr == s.cpus[d].curr
  {
    assert CpuOk(s, c);
    OnlyThere(s, c);
    var s' := Apply(s, Tick(c, false));
    StepKeepsInv(s, Tick(c, false));
    forall t, d
      ensures QueuedOn(s', t, d) <==> QueuedOn(s, t, d)
    {}
    forall d | TestCpu(s', d) && Running(s', d)
      ensures !Undone(Curr(s', d)) && Curr(s', d).pc == if d < c + 1 then AfterHalt else Halted
    {
      assert CpuOk(s, d);
      OnlyThere(s, d);
      assert Running(s, d);
    }
  }

  ghost predicate TickFails(s: State, c: nat, steps: seq<Step>) {
    && RunFrom(s, steps) && Ticks(steps, c, |s.cpus|) && After(s, steps).ctrl == Ready
    && !SettlesAll(Apply(After(s, steps), SettleStart))
  }

  lemma TickedRunnerFails(s: State, d: nat)
    requires TickedTo(s, |s.cpus|) && TestCpu(s, d) && s.cpus[d].curr != -1
    ensures TickFails(s, |s.cpus|, [])
  {
    var s' := Apply(s, SettleStart);
    StepKeepsInv(s, SettleStart);
    assert CpuOk(s, d) && TaskOk(s, s.cpus[d].curr) && Running(s, d);
    assert Curr(s', d) == Curr(s, d);
    UnquietPassFails(s', d);
  }

  lemma TickThen(s: State, c: nat, rest: seq<Step>)
    requires TestCpu(s, c) && Enabled(s, Tick(c, false)) && |Apply(s, Tick(c, false)).cpus| == |s.cpus|
    requires TickFails(Apply(s, Tick(c, false)), c + 1, rest)
    ensures TickFails(s, c, [Tick(c, false)] + rest)
  {
    Then(s, Tick(c, false), rest);
    assert ([Tick(c, false)] + rest)[1..] == rest;
  }

  lemma {:induction false} TickOfARunnerFails(s: State, c: nat, d: nat)
    requires TickedTo(s, c) && 1 <= c <= |s.cpus| && TestCpu(s, d) && s.cpus[d].curr != -1
    ensures exists steps :: TickFails(s, c, steps)
    decreases |s.cpus| - c
  {
    if c == |s.cpus| {
      TickedRunnerFails(s, d);
    } else {
      OneTick(s, c);
      var s1 := Apply(s, Tick(c, false));
      TickOfARunnerFails(s1, c + 1, d);
      var rest :| TickFails(s1, c + 1, rest);
      TickThen(s, c, rest);
    }
  }

  lemma IdleTickSettles(s: State)
    requires Resting(s) && forall c :: TestCpu(s, c) ==> s.cpus[c].curr == -1
    ensures TickSettles(s)
  {
    SettleStartIsCalm(s);
    CalmPassSettlesAll(Apply(s, SettleStart));
    forall steps | RunFrom(s, steps) && Ticks(steps, 1, |s.cpus|) && After(s, steps).ctrl == Ready
      ensures SettlesAll(Apply(After(s, steps), SettleStart))
    {
      IdleTicksDoNothing(s, steps, 1);
    }
  }

  lemma RestingIsUnticked(s: State)
    requires Resting(s)
    ensures TickedTo(s, 1)
  {
    AtRestIsStill(s);
    assert forall d :: 0 <= d < |s.cpus| ==> Quiet(s, d);
  }

  /** A tick between calls returns with every test CPU settled at once, however the machine runs, if and only if
      all test CPUs idle: the tick's interrupt ends a halt before the flag that says so is cleared. */
  lemma TickSettlesExactly(s: State)
    requires Resting(s)
    ensures TickSettles(s) <==> forall c :: TestCpu(s, c) ==> s.cpus[c].curr == -1
  {
    if forall c :: TestCpu(s, c) ==> s.cpus[c].curr == -1 {
      IdleTickSettles(s);
    } else {
      var c: nat :| TestCpu(s, c) && s.cpus[c].curr != -1;
      RestingIsUnticked(s);
      TickOfARunnerFails(s, 1, c);
      var steps :| TickFails(s, 1, steps);
    }
  }

  lemma SettleStartIsCalm(s: State)
    requires Resting(s)
    ensures InCall(Apply(s, SettleStart))
  {
    AtRestIsStill(s);
    StepKeepsInv(s, SettleStart);
    CalmButIrq(s, Apply(s, SettleStart), 0);
  }

  // ---- call after call ----

  /** A tick says what happens between its settles: the ticks themselves, and anything internal. */
  datatype Call = Ask(t: nat, act: Act) | Wakeup(t: nat, home: nat) | TickAll(ticks: seq<Step>) | Settle

  ghost predicate AllIdle(s: State) { forall c :: TestCpu(s, c) ==> s.cpus[c].curr == -1 }

  /** Where the call can be made. */
  ghost predicate Callable(s: State, call: Call) {
    s.ctrl == Ready &&
    match call
    case Ask(t, act) => Enabled(s, Put(t, act))
    case Wakeup(t, home) => Enabled(s, Signal(t, home))
    case TickAll(ticks) => RunFrom(s, ticks) && Ticks(ticks, 1, |s.cpus|) && After(s, ticks).ctrl == Ready
    case Settle => true
  }

  /** The call has acted: its kick, if any, and its pass are still to come. */
  ghost function Begun(s: State, call: Call): State
    requires Callable(s, call)
  {
    match call
    case Ask(t, act) => Apply(s, Put(t, act))
    case Wakeup(t, home) => Apply(s, Signal(t, home))
    case TickAll(ticks) => Apply(After(s, ticks), SettleStart)
    case Settle => Apply(s, SettleStart)
  }

  /** What a caller can see before the call. */
  ghost predicate Harmless(s: State, call: Call) {
    match call
    case Ask(t, act) => Current(s, t) ==> AskIsPeaceful(s, act)
    case Wakeup(t, home) => Peaceful(s) && TaskId(s, t) && TestCpu(s, home) && !(s.tasks[t].pc.Asleep? && s.cpus[home].curr != -1)
    case TickAll(_) => AllIdle(s)
    case Settle => true
  }

  /** Where nobody owes a write, no harmless call is left out: these are the three exact conditions. */
  lemma HarmlessIsExact(s: State, call: Call)
    requires Resting(s) && Callable(s, call)
    ensures !call.TickAll? ==> (SettlesAll(Begun(s, call)) <==> Harmless(s, call))
    ensures call.TickAll? ==> (TickSettles(s) <==> Harmless(s, call))
  {
    match call
    case Ask(t, act) => AskSettlesExactly(s, t, act);
    case Wakeup(t, home) => WakeupSettlesExactly(s, t, home);
    case TickAll(_) => TickSettlesExactly(s);
    case Settle =>
      SettleStartIsCalm(s);
      CalmPassSettlesAll(Begun(s, call));
  }

  /** The controller's own CPU stays out of it. */
  ghost predicate Home(s: State) { |s.cpus| > 0 ==> s.cpus[0].curr == -1 && Quiet(s, 0) }

  lemma HomeStays(s: State, step: Step)
    requires InCall(s) && Home(s) && Enabled(s, step) && Rest(step)
    ensures Home(Apply(s, step)) && |Apply(s, step).cpus| == |s.cpus|
  {
    if Internal(step) {
      InternalKeepsCtrl(s, step);
    }
    if |s.cpus| > 0 {
      assert CalmCpu(s, 0);
      if Internal(step) {
        CalmNeverWakes(s, step);
        QuietStays(s, step, 0);
        if step.c != 0 {
          StepsApart(s, step, 0);
        }
      } else {
        assert forall t :: QueuedOn(Apply(s, step), t, 0) <==> QueuedOn(s, t, 0);
        if step.Kick? {
          assert TaskOk(s, s.ctrl.t);
        }
      }
    }
  }

  lemma {:induction false} HomeStaysAlong(s: State, steps: seq<Step>)
    requires InCall(s) && Home(s) && RunFrom(s, steps) && AllRest(steps)
    ensures Home(After(s, steps)) && |After(s, steps).cpus| == |s.cpus|
    decreases |steps|
  {
    if steps != [] {
      assert Rest(steps[0]);
      HomeStays(s, steps[0]);
      RestStays(s, steps[0]);
      HomeStaysAlong(Apply(s, steps[0]), steps[1..]);
    }
  }

  lemma HomeBegins(s: State, call: Call)
    requires AtRest(s) && Callable(s, call) && (call.Ask? || call.Wakeup?)
    ensures Home(Begun(s, call)) && |Begun(s, call).cpus| == |s.cpus|
  {
    if |s.cpus| > 0 {
      assert Quiet(s, 0);
      assert forall t :: QueuedOn(Begun(s, call), t, 0) ==> QueuedOn(s, t, 0);
    }
  }

  /** A call that lets a task run. */
  predicate Moves(s: State, call: Call) { call.Wakeup? || (call.Ask? && Current(s, call.t)) }

  lemma MovingCallBegins(s: State, call: Call)
    requires AtRest(s) && Callable(s, call) && Harmless(s, call) && Moves(s, call)
    ensures InCall(Begun(s, call)) && Home(Begun(s, call))
  {
    if call.Ask? {
      PutIsCalm(s, call.t, call.act);
    } else {
      SignalIsCalm(s, call.t, call.home);
    }
    HomeBegins(s, call);
  }

  lemma StandingCallBegins(s: State, call: Call)
    requires AtRest(s) && Callable(s, call) && Harmless(s, call) && !Moves(s, call)
    ensures Idles(Begun(s, call)) && Begun(s, call).cpus == s.cpus
    ensures !call.Ask? ==> Begun(s, call).tasks == s.tasks
  {
    match call
    case Ask(t, act) => AskIdles(s, t, act);
    case TickAll(ticks) =>
      IdleTicksDoNothing(s, ticks, 1);
      SettleIdles(s);
    case Settle => SettleIdles(s);
  }

  lemma SettleIdles(s: State)
    requires AtRest(s)
    ensures Idles(Apply(s, SettleStart))
  {
    var s1 := Apply(s, SettleStart);
    AtRestIsStill(s);
    StepKeepsInv(s, SettleStart);
    forall c | 0 <= c < |s1.cpus|
      ensures Quiet(s1, c)
    {
      QuietElsewhere(s, s1, c);
    }
    forall c | Running(s1, c)
      ensures Curr(s1, c).pc == Halted
    {
      assert Running(s, c);
    }
  }

  /** A call returns, and everything is quiet. */
  lemma ReturnIsAtRest(s: State)
    requires Inv(s) && Enabled(s, SettleDone) && (forall c :: 0 <= c < |s.cpus| ==> Quiet(s, c) && !s.cpus[c].irq)
    requires |s.cpus| > 0 ==> s.cpus[0].curr == -1
    ensures AtRest(Apply(s, SettleDone))
  {
    var s' := Apply(s, SettleDone);
    StepKeepsInv(s, SettleDone);
    forall c | 0 <= c < |s'.cpus|
      ensures Quiet(s', c)
    {
      QuietElsewhere(s, s', c);
    }
  }

  lemma InCallReturns(s: State)
    requires InCall(s) && Home(s) && Enabled(s, SettleDone)
    ensures forall c :: 0 <= c < |s.cpus| ==> Quiet(s, c) && !s.cpus[c].irq
  {
    forall c | 0 <= c < |s.cpus|
      ensures Quiet(s, c) && !s.cpus[c].irq
    {
      assert c >= 1 ==> Quiet(s, c);
      CalmSettledIsQuiet(s, c);
    }
  }

  ghost predicate CallRuns(s: State, call: Call, steps: seq<Step>) {
    Callable(s, call) && Harmless(s, call) && Returns(Begun(s, call), steps)
  }

  ghost function Returned(s: State, call: Call, steps: seq<Step>): State
    requires CallRuns(s, call, steps)
  {
    Apply(After(Begun(s, call), steps), SettleDone)
  }

  lemma CallIsAtRest(s: State, call: Call, steps: seq<Step>)
    requires AtRest(s) && CallRuns(s, call, steps)
    ensures AtRest(Returned(s, call, steps))
  {
    var s1 := Begun(s, call);
    if Moves(s, call) {
      MovingCallBegins(s, call);
      CallSettles(s1, steps);
      HomeStaysAlong(s1, steps);
      InCallReturns(After(s1, steps));
    } else {
      StandingCallBegins(s, call);
      IdleCallSettles(s1, steps);
    }
    ReturnIsAtRest(After(s1, steps));
  }

  // ---- what is owed afterwards ----

  /** The call leaves a write behind: its target is not at a read. */
  predicate LeavesAWrite(s: State, call: Call) { call.Ask? && call.act == CHAN_WRITE && !Current(s, call.t) }

  /** t runs, only writes are left to do, and nobody else has one. */
  ghost predicate LoneWriter(s: State, t: nat) {
    OnlyWrites(s) && Current(s, t) && forall u :: TaskId(s, u) && u != t ==> !Owes(s.tasks[u], CHAN_WRITE)
  }

  lemma LoopKeepsCurrent(s: State, step: Step, t: nat)
    requires Enabled(s, step) && Current(s, t)
    requires step.Leave? || step.Handle? || step.Call? || step.Read? || step.Check? || step.Resume? || step.Irq?
    ensures Current(Apply(s, step), t)
  {}

  lemma LoneWriterStays(s: State, step: Step, t: nat)
    requires Inv(s) && LoneWriter(s, t) && Enabled(s, step) && Rest(step)
    ensures LoneWriter(Apply(s, step), t)
  {
    var s' := Apply(s, step);
    if Internal(step) {
      OnlyLoops(s, step);
      OnlyWritesStays(s, step);
      LoopKeepsCurrent(s, step, t);
      InternalKeepsTasks(s, step);
      forall u | TaskId(s', u) && u != t
        ensures !Owes(s'.tasks[u], CHAN_WRITE)
      {
        assert !Owes(s.tasks[u], CHAN_WRITE);
        LoopOwesNothingNew(s, step, u, CHAN_WRITE);
      }
    } else {
      SameTasksSameWakeups(s, s');
    }
  }

  lemma {:induction false} LoneWriterStaysAlong(s: State, steps: seq<Step>, t: nat)
    requires InCall(s) && LoneWriter(s, t) && RunFrom(s, steps) && AllRest(steps)
    ensures LoneWriter(After(s, steps), t)
    decreases |steps|
  {
    if steps != [] {
      assert Rest(steps[0]);
      LoneWriterStays(s, steps[0], t);
      RestStays(s, steps[0]);
      LoneWriterStaysAlong(Apply(s, steps[0]), steps[1..], t);
    }
  }

  /** A write by the task that runs is done when its call returns. */
  lemma WriteIsDone(s: State, t: nat, steps: seq<Step>)
    requires Resting(s) && Current(s, t) && CallRuns(s, Ask(t, CHAN_WRITE), steps)
    ensures NoneOwes(After(Begun(s, Ask(t, CHAN_WRITE)), steps), CHAN_WRITE)
  {
    var call := Ask(t, CHAN_WRITE);
    var s1 := Begun(s, call);
    MovingCallBegins(s, call);
    PutOnlyWrites(s, t);
    forall u | TaskId(s1, u) && u != t
      ensures !Owes(s1.tasks[u], CHAN_WRITE)
    {
      assert !Owes(s.tasks[u], CHAN_WRITE);
    }
    LoneWriterStaysAlong(s1, steps, t);
    CallSettles(s1, steps);
    HomeStaysAlong(s1, steps);
    var s2 := After(s1, steps);
    InCallReturns(s2);
    assert Quiet(s2, s2.tasks[t].cpu);
    assert !Owes(s2.tasks[t], CHAN_WRITE);
  }

  lemma OtherAskOwesNothing(s: State, call: Call)
    requires Resting(s) && Callable(s, call) && Harmless(s, call) && !(call.Ask? && call.act == CHAN_WRITE)
    ensures NoneOwes(Begun(s, call), CHAN_WRITE)
  {
    match call
    case Ask(t, act) => PutOwesNothing(s, t, act, CHAN_WRITE);
    case Wakeup(t, home) => SignalOwesNothing(s, t, home);
    case TickAll(ticks) => IdleTicksDoNothing(s, ticks, 1);
    case Settle =>
  }

  /** When a harmless call returns everything is at rest again; and nobody owes a write, if nobody did before and
      the call itself has not left one to a task that is not at a read. */
  lemma CallRests(s: State, call: Call, steps: seq<Step>)
    requires AtRest(s) && CallRuns(s, call, steps)
    ensures AtRest(Returned(s, call, steps))
    ensures Resting(s) && !LeavesAWrite(s, call) ==> Resting(Returned(s, call, steps))
  {
    CallIsAtRest(s, call, steps);
    var s1 := Begun(s, call);
    if Resting(s) && !LeavesAWrite(s, call) {
      if call.Ask? && call.act == CHAN_WRITE {
        WriteIsDone(s, call.t, steps);
      } else {
        OtherAskOwesNothing(s, call);
        OwedStays(s1, steps);
      }
      SameTasksSameWakeups(After(s1, steps), Returned(s, call, steps));
    }
  }

  lemma {:induction false} OwedStays(s: State, steps: seq<Step>)
    requires RunFrom(s, steps) && AllRest(steps) && NoneOwes(s, CHAN_WRITE)
    ensures NoneOwes(After(s, steps), CHAN_WRITE)
    decreases |steps|
  {
    if steps != [] {
      assert Rest(steps[0]);
      WakeupsStay(s, steps[0]);
      OwedStays(Apply(s, steps[0]), steps[1..]);
    }
  }

  // ---- sessions ----

  /** One call after another, each harmless where it is made and each run to its return. */
  ghost predicate Calls(s: State, calls: seq<(Call, seq<Step>)>)
    decreases |calls|
  {
    calls == [] || (CallRuns(s, calls[0].0, calls[0].1) && Calls(Returned(s, calls[0].0, calls[0].1), calls[1..]))
  }

  ghost function AfterCalls(s: State, calls: seq<(Call, seq<Step>)>): State
    requires Calls(s, calls)
    decreases |calls|
  {
    if calls == [] then s else AfterCalls(Returned(s, calls[0].0, calls[0].1), calls[1..])
  }

  ghost predicate LeaveNoWrite(s: State, calls: seq<(Call, seq<Step>)>)
    requires Calls(s, calls)
    decreases |calls|
  {
    calls == [] || (!LeavesAWrite(s, calls[0].0) && LeaveNoWrite(Returned(s, calls[0].0, calls[0].1), calls[1..]))
  }

  lemma RestIsSettled(s: State)
    requires AtRest(s)
    ensures AllSettled(s) && forall t :: !InWindow(s, t)
  {
    assert forall c :: TestCpu(s, c) ==> Quiet(s, c);
    forall t
      ensures !InWindow(s, t)
    {
      if TaskId(s, t) {
        assert TaskOk(s, t) && Quiet(s, s.tasks[t].cpu);
        SettledIsOutsideTheWindow(s, t);
      }
    }
  }

  /** So at the return of every call of such a session all CPUs are settled at once, and no put falls into its
      target's window. */
  lemma {:induction false} SessionRests(s: State, calls: seq<(Call, seq<Step>)>)
    requires AtRest(s) && Calls(s, calls)
    ensures var s' := AfterCalls(s, calls);
      AtRest(s') && AllSettled(s') && (forall t :: !InWindow(s', t)) && (Resting(s) && LeaveNoWrite(s, calls) ==> Resting(s'))
    decreases |calls|
  {
    if calls == [] {
      RestIsSettled(s);
    } else {
      CallRests(s, calls[0].0, calls[0].1);
      SessionRests(Returned(s, calls[0].0, calls[0].1), calls[1..]);
    }
  }
}
