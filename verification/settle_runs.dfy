/** Two runs from boot, in the order in which the code calls things, that go wrong: the assumptions of the
    protocol are not consequences of that order. */
module SettleRuns {
  import opened Control
  import opened Settle
  import opened SettlePass
  import opened SettleCalm
  import opened SettleCalls

  // ---- the code's own order ----

  /** What the controller has done since a kstep_settle last returned: nothing, ticked the test CPUs below next,
      or made, moved or changed tasks. */
  datatype Since = Nothing | Ticked(next: nat) | Changed

  function Does(since: Since, step: Step): Since {
    match step
    case SettleDone => Nothing
    case Tick(c, _) => Ticked(c + 1)
    case Create => Changed
    case Migrate(_, _, _) => if since.Ticked? then since else Changed
    case _ => since
  }

  /** An action is put only straight behind a settle; the ticks come straight behind one too, one test CPU
      after another, and behind the last of them a settle; only a new task's first wakeup needs none before it. */
  predicate MayDo(n: nat, since: Since, step: Step) {
    match step
    case Put(_, _) => since == Nothing
    case Signal(_, _) => !since.Ticked?
    case Create => !since.Ticked?
    case Tick(c, _) => if since.Ticked? then c == since.next else since == Nothing && c == 1
    case SettleStart => since.Ticked? ==> since.next == n
    case _ => true
  }

  predicate InOrder(n: nat, since: Since, steps: seq<Step>)
    decreases |steps|
  {
    steps == [] || (MayDo(n, since, steps[0]) && InOrder(n, Does(since, steps[0]), steps[1..]))
  }

  function DoneBy(since: Since, steps: seq<Step>): Since
    decreases |steps|
  {
    if steps == [] then since else DoneBy(Does(since, steps[0]), steps[1..])
  }

  /** From s, with since done, steps run in the code's order to s', and leave since'. */
  ghost predicate Goes(n: nat, s: State, since: Since, steps: seq<Step>, s': State, since': Since) {
    RunFrom(s, steps) && After(s, steps) == s' && InOrder(n, since, steps) && DoneBy(since, steps) == since'
  }

  /** Some run of a freshly booted machine of n CPUs gets there. */
  ghost predicate Reached(n: nat, s: State, since: Since) {
    exists steps :: Goes(n, Boot(n), Changed, steps, s, since)
  }

  lemma {:induction false} OneMoreStep(n: nat, s: State, since: Since, steps: seq<Step>, s': State, since': Since, step: Step)
    requires Goes(n, s, since, steps, s', since') && Enabled(s', step) && MayDo(n, since', step)
    ensures Goes(n, s, since, steps + [step], Apply(s', step), Does(since', step))
    decreases |steps|
  {
    if steps == [] {
      assert steps + [step] == [step] + [];
      Then(s, step, []);
    } else {
      OneMoreStep(n, Apply(s, steps[0]), Does(since, steps[0]), steps[1..], s', since', step);
      assert steps + [step] == [steps[0]] + (steps[1..] + [step]);
      Then(s, steps[0], steps[1..] + [step]);
    }
  }

  lemma By(n: nat, s: State, since: Since, step: Step)
    requires Reached(n, s, since) && Enabled(s, step) && MayDo(n, since, step)
    ensures Reached(n, Apply(s, step), Does(since, step))
  {
    var steps :| Goes(n, Boot(n), Changed, steps, s, since);
    OneMoreStep(n, Boot(n), Changed, steps, s, since, step);
  }

  lemma Booted(n: nat)
    ensures Reached(n, Boot(n), Changed)
  {
    assert Goes(n, Boot(n), Changed, [], Boot(n), Changed);
  }

  // ---- stretches that both runs share ----

  /** c's task, changed. */
  function With(s: State, c: nat, x: Task): State
    requires Running(s, c)
  {
    SetTask(s, s.cpus[c].curr, x)
  }

  /** Round the loop from the way back to user mode to what the read hands over. */
  lemma ToTheRead(n: nat, s: State, since: Since, c: nat)
    requires Reached(n, s, since) && At(s, c, Exit(NONE)) && !Curr(s, c).sig && !s.cpus[c].resched
    ensures Reached(n, With(s, c, Curr(s, c).(pc := Take)), since)
  {
    By(n, s, since, Leave(c));
    var s1 := With(s, c, Curr(s, c).(pc := User(NONE)));
    assert Apply(s, Leave(c)) == s1;
    By(n, s1, since, Call(c));
    assert Apply(s1, Call(c)) == With(s, c, Curr(s, c).(pc := Take));
  }

  lemma ToTheCheck(n: nat, s: State, since: Since, c: nat)
    requires Reached(n, s, since) && At(s, c, Exit(NONE)) && !Curr(s, c).sig && !s.cpus[c].resched && Curr(s, c).q == []
    ensures Reached(n, With(s, c, Curr(s, c).(pc := IrqOff)), since)
  {
    ToTheRead(n, s, since, c);
    var s1 := With(s, c, Curr(s, c).(pc := Take));
    By(n, s1, since, Read(c));
    assert Apply(s1, Read(c)) == With(s, c, Curr(s, c).(pc := IrqOff));
  }

  lemma ToTheHalt(n: nat, s: State, since: Since, c: nat)
    requires Reached(n, s, since) && At(s, c, Exit(NONE)) && !Curr(s, c).sig && !s.cpus[c].resched && Curr(s, c).q == []
    ensures Reached(n, With(s, c, Curr(s, c).(pc := Halted, settled := true)), since)
  {
    ToTheCheck(n, s, since, c);
    var s1 := With(s, c, Curr(s, c).(pc := IrqOff));
    By(n, s1, since, Check(c));
    assert Apply(s1, Check(c)) == With(s, c, Curr(s, c).(pc := Halted, settled := true));
  }

  /** The controller's pass, where every test CPU tests settled. */
  lemma {:induction false} Passes(n: nat, s: State, since: Since)
    requires Reached(n, s, since) && s.ctrl.Settling? && 1 <= s.ctrl.c && AllSettled(s)
    ensures Reached(n, s.(ctrl := Ready), Nothing)
    decreases |s.cpus| - s.ctrl.c
  {
    if s.ctrl.c >= |s.cpus| {
      By(n, s, since, SettleDone);
    } else {
      By(n, s, since, Poll);
      var s1 := s.(ctrl := Settling(s.ctrl.c + 1));
      assert forall t, c :: QueuedOn(s1, t, c) <==> QueuedOn(s, t, c);
      assert forall c :: TestCpu(s1, c) ==> CpuSettled(s, c);
      Passes(n, s1, since);
    }
  }

  const IDLE := Cpu(-1, false, false)

  /** A task as its creation leaves it. */
  function Parked(home: nat): Task { Task(Asleep(PARK), Off, home, false, false, [], [PARK], [PARK]) }

  lemma IsBorn(n: nat, s: State, since: Since, home: nat)
    requires Reached(n, s, since) && s.ctrl == Ready && !since.Ticked? && TestCpu(s, home) && s.cpus[0] == IDLE && Empty(s, 0)
    ensures Reached(n, s.(tasks := s.tasks + [Parked(home)]), Changed)
  {
    var t := |s.tasks|;
    By(n, s, since, Create);
    var s1 := Apply(s, Create);
    var born := Task(Exit(NONE), Queued, 0, false, false, [PARK], [PARK], []);
    assert At(s1, 0, Exit(NONE)) && Curr(s1, 0) == born;
    ToTheRead(n, s1, Changed, 0);
    var s2 := With(s1, 0, born.(pc := Take));
    ParksThere(s, s2, home);
    By(n, s2, Changed, ReadPark(0, -1));
    var s3 := Apply(s2, ReadPark(0, -1));
    By(n, s3, Changed, Created(home));
  }

  lemma ParksThere(s: State, s2: State, home: nat)
    requires s.ctrl == Ready && TestCpu(s, home) && s.cpus[0] == IDLE && Empty(s, 0)
    requires s2.tasks == s.tasks + [Task(Take, Queued, 0, false, false, [PARK], [PARK], [])]
    requires s2.cpus == s.cpus[0 := Cpu(|s.tasks|, false, false)] && s2.tokens == s.tokens && s2.ctrl == Creating(|s.tasks|)
    ensures Enabled(s2, ReadPark(0, -1)) && Enabled(Apply(s2, ReadPark(0, -1)), Created(home))
    ensures Apply(Apply(s2, ReadPark(0, -1)), Created(home)) == s.(tasks := s.tasks + [Parked(home)])
  {
    var b := BeforeSwitch(s2, ReadPark(0, -1));
    assert [PARK][1..] == [] && [] + [PARK] == [PARK];
    assert b.tasks == s.tasks + [Parked(0)];
    assert forall u :: QueuedOn(b, u, 0) ==> QueuedOn(s, u, 0);
    var s3 := Apply(s2, ReadPark(0, -1));
    assert s3.cpus == s.cpus;
    assert Apply(s3, Created(home)).tasks == s.tasks + [Parked(home)];
  }

  /** A task that sleeps with nothing to do, woken onto an idle CPU and back in its halt. */
  function HaltedOn(s: State, t: nat, home: nat): State
    requires TaskId(s, t) && home < |s.cpus|
  {
    SetTask(SetCpu(s, home, Cpu(t, false, false)), t, s.tasks[t].(pc := Halted, run := Queued, cpu := home, settled := true))
    .(ctrl := Settling(1))
  }

  lemma Move(n: nat, s: State, since: Since, step: Step, s': State)
    requires Reached(n, s, since) && Enabled(s, step) && Apply(s, step) == s' && MayDo(n, since, step)
    ensures Reached(n, s', Does(since, step))
  {
    By(n, s, since, step);
  }

  predicate Sleeper(s: State, t: nat, home: nat) {
    && TestCpu(s, home) && s.cpus[home] == IDLE && TaskId(s, t)
    && s.tasks[t].pc.Asleep? && s.tasks[t].q == [] && !s.tasks[t].sig && !s.tasks[t].settled && s.tasks[t].cpu < |s.cpus|
  }

  /** On its way, with the signal still to handle. */
  function Woken(s: State, t: nat, home: nat, run: Run, cpu: Cpu): State
    requires TaskId(s, t) && home < |s.cpus|
  {
    SetTask(SetCpu(s, home, cpu), t, s.tasks[t].(pc := Exit(NONE), run := run, cpu := home, sig := true)).(ctrl := Settling(1))
  }

  lemma SignalTo(s: State, t: nat, home: nat)
    requires Sleeper(s, t, home) && s.ctrl == Ready
    ensures Enabled(s, Signal(t, home)) && Apply(s, Signal(t, home)) == Woken(s, t, home, Waking, IDLE)
  {
    assert s.cpus[home := IDLE] == s.cpus;
    assert Apply(s, Signal(t, home)).tasks == Woken(s, t, home, Waking, IDLE).tasks;
  }

  lemma ArrivesOn(s: State, t: nat, home: nat)
    requires Sleeper(s, t, home) && Empty(s, home)
    ensures var s1, s2 := Woken(s, t, home, Waking, IDLE), Woken(s, t, home, Queued, Cpu(-1, true, false));
      Enabled(s1, Activate(home, t, true)) && Apply(s1, Activate(home, t, true)) == s2
    ensures var s2, s3 := Woken(s, t, home, Queued, Cpu(-1, true, false)), Woken(s, t, home, Queued, Cpu(t, false, false));
      Enabled(s2, Resched(home, t)) && Apply(s2, Resched(home, t)) == s3
  {
    var s1, s2 := Woken(s, t, home, Waking, IDLE), Woken(s, t, home, Queued, Cpu(-1, true, false));
    var s3 := Woken(s, t, home, Queued, Cpu(t, false, false));
    assert Apply(s1, Activate(home, t, true)).tasks == s2.tasks;
    assert Apply(s1, Activate(home, t, true)).cpus == s2.cpus;
    assert QueuedOn(s2, t, home);
    assert Apply(s2, Resched(home, t)).tasks == s3.tasks;
    assert Apply(s2, Resched(home, t)).cpus == s3.cpus;
  }

  function Returned(s: State, t: nat, home: nat): State
    requires TaskId(s, t) && home < |s.cpus|
  {
    SetTask(SetCpu(s, home, Cpu(t, false, false)), t, s.tasks[t].(pc := Exit(NONE), run := Queued, cpu := home)).(ctrl := Settling(1))
  }

  lemma HandlesThere(s: State, t: nat, home: nat)
    requires Sleeper(s, t, home)
    ensures var s3 := Woken(s, t, home, Queued, Cpu(t, false, false));
      Enabled(s3, Handle(home)) && Apply(s3, Handle(home)) == Returned(s, t, home)
    ensures var s4 := Returned(s, t, home);
      && At(s4, home, Exit(NONE)) && Curr(s4, home) == s4.tasks[t]
      && With(s4, home, Curr(s4, home).(pc := Halted, settled := true)) == HaltedOn(s, t, home)
  {
    var s3, s4 := Woken(s, t, home, Queued, Cpu(t, false, false)), Returned(s, t, home);
    assert Apply(s3, Handle(home)).tasks == s4.tasks;
    assert With(s4, home, Curr(s4, home).(pc := Halted, settled := true)).tasks == HaltedOn(s, t, home).tasks;
  }

  lemma IsWoken(n: nat, s: State, since: Since, t: nat, home: nat)
    requires Reached(n, s, since) && s.ctrl == Ready && !since.Ticked? && Sleeper(s, t, home) && Empty(s, home)
    ensures Reached(n, HaltedOn(s, t, home), since)
  {
    SignalTo(s, t, home);
    ArrivesOn(s, t, home);
    HandlesThere(s, t, home);
    var s1, s2 := Woken(s, t, home, Waking, IDLE), Woken(s, t, home, Queued, Cpu(-1, true, false));
    var s3, s4 := Woken(s, t, home, Queued, Cpu(t, false, false)), Returned(s, t, home);
    Move(n, s, since, Signal(t, home), s1);
    Move(n, s1, since, Activate(home, t, true), s2);
    Move(n, s2, since, Resched(home, t), s3);
    Move(n, s3, since, Handle(home), s4);
    ToTheHalt(n, s4, since, home);
  }

  /** The running task at the read is asked act and has taken it. */
  function Told(x: Task, act: Act): Task {
    x.(pc := Exit(act), settled := false, put := x.put + [act], taken := x.taken + [act])
  }

  predicate AtItsRead(s: State, c: nat) {
    At(s, c, Halted) && s.cpus[c] == Cpu(s.cpus[c].curr, false, false)
    && Curr(s, c).q == [] && !Curr(s, c).sig && Curr(s, c).settled && Curr(s, c).cpu == c
  }

  /** The same, asked act and somewhere on its way to taking it. */
  function Asked(s: State, c: nat, act: Act, pc: Pc, irq: bool, ctrl: Ctrl): State
    requires Running(s, c)
  {
    var x := Curr(s, c);
    SetCpu(With(s, c, x.(pc := pc, q := [act], put := x.put + [act], settled := pc == Halted || pc == AfterHalt)),
      c, Cpu(s.cpus[c].curr, false, irq)).(ctrl := ctrl)
  }

  lemma LetOut(s: State, c: nat, act: Act)
    requires AtItsRead(s, c) && s.ctrl == Ready && act !in {NONE, PARK}
    ensures var t, s1 := s.cpus[c].curr, Asked(s, c, act, Halted, false, Posted(s.cpus[c].curr));
      Enabled(s, Put(t, act)) && Apply(s, Put(t, act)) == s1
    ensures var s1, s2 := Asked(s, c, act, Halted, false, Posted(s.cpus[c].curr)), Asked(s, c, act, Halted, true, Kicking(c));
      Enabled(s1, Kick) && Apply(s1, Kick) == s2
  {
    var t, x := s.cpus[c].curr, Curr(s, c);
    var s1, s2 := Asked(s, c, act, Halted, false, Posted(t)), Asked(s, c, act, Halted, true, Kicking(c));
    assert x.q + [act] == [act] && s.cpus[c := Cpu(t, false, false)] == s.cpus;
    assert Apply(s, Put(t, act)).tasks == s1.tasks;
    assert Apply(s1, Kick).cpus == s2.cpus;
  }

  lemma TakesIt(s: State, c: nat, act: Act)
    requires AtItsRead(s, c) && s.ctrl == Ready && act !in {NONE, PARK}
    ensures var s2, s3 := Asked(s, c, act, Halted, true, Kicking(c)), Asked(s, c, act, AfterHalt, false, Kicking(c));
      Enabled(s2, Irq(c)) && Apply(s2, Irq(c)) == s3
    ensures var s3, s4 := Asked(s, c, act, AfterHalt, false, Kicking(c)), Asked(s, c, act, AfterHalt, false, Settling(1));
      Enabled(s3, Kicked) && Apply(s3, Kicked) == s4
    ensures var s4, s5 := Asked(s, c, act, AfterHalt, false, Settling(1)), Asked(s, c, act, Exit(NONE), false, Settling(1));
      Enabled(s4, Resume(c)) && Apply(s4, Resume(c)) == s5
  {
    var s2, s3 := Asked(s, c, act, Halted, true, Kicking(c)), Asked(s, c, act, AfterHalt, false, Kicking(c));
    var s4, s5 := Asked(s, c, act, AfterHalt, false, Settling(1)), Asked(s, c, act, Exit(NONE), false, Settling(1));
    assert Apply(s2, Irq(c)).tasks == s3.tasks && Apply(s2, Irq(c)).cpus == s3.cpus;
    assert Apply(s4, Resume(c)).tasks == s5.tasks;
  }

  lemma ReadsIt(s: State, c: nat, act: Act)
    requires AtItsRead(s, c) && s.ctrl == Ready && act !in {NONE, PARK}
    ensures var s5, s6 := Asked(s, c, act, Exit(NONE), false, Settling(1)), Asked(s, c, act, Take, false, Settling(1));
      && At(s5, c, Exit(NONE)) && s6 == With(s5, c, Curr(s5, c).(pc := Take))
      && Enabled(s6, Read(c)) && Apply(s6, Read(c)) == With(s, c, Told(Curr(s, c), act)).(ctrl := Settling(1))
  {
    var s5, s6 := Asked(s, c, act, Exit(NONE), false, Settling(1)), Asked(s, c, act, Take, false, Settling(1));
    assert With(s5, c, Curr(s5, c).(pc := Take)).tasks == s6.tasks;
    assert [act][1..] == [];
    assert s.cpus[c := Cpu(s.cpus[c].curr, false, false)] == s.cpus;
    assert Apply(s6, Read(c)).tasks == With(s, c, Told(Curr(s, c), act)).tasks;
  }

  lemma IsAsked(n: nat, s: State, c: nat, act: Act)
    requires Reached(n, s, Nothing) && s.ctrl == Ready && AtItsRead(s, c) && act !in {NONE, PARK}
    ensures Reached(n, With(s, c, Told(Curr(s, c), act)).(ctrl := Settling(1)), Nothing)
  {
    var t := s.cpus[c].curr;
    LetOut(s, c, act);
    TakesIt(s, c, act);
    ReadsIt(s, c, act);
    Move(n, s, Nothing, Put(t, act), Asked(s, c, act, Halted, false, Posted(t)));
    Move(n, Asked(s, c, act, Halted, false, Posted(t)), Nothing, Kick, Asked(s, c, act, Halted, true, Kicking(c)));
    Move(n, Asked(s, c, act, Halted, true, Kicking(c)), Nothing, Irq(c), Asked(s, c, act, AfterHalt, false, Kicking(c)));
    Move(n, Asked(s, c, act, AfterHalt, false, Kicking(c)), Nothing, Kicked, Asked(s, c, act, AfterHalt, false, Settling(1)));
    Move(n, Asked(s, c, act, AfterHalt, false, Settling(1)), Nothing, Resume(c), Asked(s, c, act, Exit(NONE), false, Settling(1)));
    ToTheRead(n, Asked(s, c, act, Exit(NONE), false, Settling(1)), Nothing, c);
    Move(n, Asked(s, c, act, Take, false, Settling(1)), Nothing, Read(c), With(s, c, Told(Curr(s, c), act)).(ctrl := Settling(1)));
  }

  // ---- a put after a tick ----

  /** One task on a machine with one test CPU, where it runs with nothing pending. */
  function On(pc: Pc, q: seq<Act>, ctrl: Ctrl): State {
    State([Task(pc, Queued, 1, false, pc == Halted || pc == AfterHalt, q, [PARK] + q, [PARK])], [IDLE, Cpu(0, false, false)], 0, ctrl)
  }

  /** After a halt the flag that says so is still up, and the poll passes. */
  lemma OnSettles(pc: Pc, ctrl: Ctrl)
    requires pc == Halted || pc == AfterHalt
    ensures var s := On(pc, [], ctrl); AllSettled(s) && s.(ctrl := Ready) == On(pc, [], Ready)
  {
    var s := On(pc, [], ctrl);
    assert Running(s, 1) && Curr(s, 1) == s.tasks[0];
  }

  lemma FirstTask()
    ensures var s, s1 := Boot(2), Boot(2).(tasks := Boot(2).tasks + [Parked(1)]);
      && s.ctrl == Ready && TestCpu(s, 1) && s.cpus[0] == IDLE && Empty(s, 0)
      && Sleeper(s1, 0, 1) && Empty(s1, 1) && HaltedOn(s1, 0, 1) == On(Halted, [], Settling(1))
  {
    var s := Boot(2);
    var s1 := s.(tasks := s.tasks + [Parked(1)]);
    assert s1.tasks == [Parked(1)] && s1.cpus == [IDLE, IDLE] && [PARK] + [] == [PARK];
    assert HaltedOn(s1, 0, 1).tasks == On(Halted, [], Settling(1)).tasks;
    assert HaltedOn(s1, 0, 1).cpus == On(Halted, [], Settling(1)).cpus;
  }

  lemma FirstTaskHalts()
    ensures Reached(2, On(Halted, [], Ready), Nothing)
  {
    Booted(2);
    FirstTask();
    IsBorn(2, Boot(2), Changed, 1);
    var s1 := Boot(2).(tasks := Boot(2).tasks + [Parked(1)]);
    IsWoken(2, s1, Changed, 0, 1);
    OnSettles(Halted, Settling(1));
    Passes(2, On(Halted, [], Settling(1)), Changed);
  }

  lemma TickLetsOut()
    ensures var s, s' := On(Halted, [], Ready), On(AfterHalt, [], Ready);
      Enabled(s, Tick(1, false)) && Apply(s, Tick(1, false)) == s'
  {
    var s := On(Halted, [], Ready);
    assert Running(s, 1) && Curr(s, 1) == s.tasks[0];
  }

  /** kstep_tick: a settle, the ticks and a settle. */
  lemma TickPasses()
    ensures Reached(2, On(AfterHalt, [], Ready), Nothing)
  {
    FirstTaskHalts();
    OnSettles(Halted, Settling(1));
    OnSettles(AfterHalt, Settling(1));
    TickLetsOut();
    Move(2, On(Halted, [], Ready), Nothing, SettleStart, On(Halted, [], Settling(1)));
    Passes(2, On(Halted, [], Settling(1)), Nothing);
    Move(2, On(Halted, [], Ready), Nothing, Tick(1, false), On(AfterHalt, [], Ready));
    Move(2, On(AfterHalt, [], Ready), Ticked(2), SettleStart, On(AfterHalt, [], Settling(1)));
    Passes(2, On(AfterHalt, [], Settling(1)), Ticked(2));
  }

  lemma RoundAgain()
    ensures var s, s' := On(AfterHalt, [], Ready), On(Exit(NONE), [], Ready);
      Enabled(s, Resume(1)) && Apply(s, Resume(1)) == s'
    ensures var s, s' := On(Exit(NONE), [], Ready), On(IrqOff, [], Ready);
      At(s, 1, Exit(NONE)) && Curr(s, 1).q == [] && !Curr(s, 1).sig && With(s, 1, Curr(s, 1).(pc := IrqOff)) == s'
  {
    assert Running(On(AfterHalt, [], Ready), 1) && Running(On(Exit(NONE), [], Ready), 1);
  }

  /** The next action is put between the task's take and its halt. */
  lemma PutThere()
    ensures var s, s' := On(IrqOff, [], Ready), On(IrqOff, [PAUSE], Posted(0));
      Enabled(s, Put(0, PAUSE)) && Apply(s, Put(0, PAUSE)) == s'
    ensures var s, s' := On(IrqOff, [PAUSE], Posted(0)), On(IrqOff, [PAUSE], Settling(1));
      Enabled(s, Kick) && Apply(s, Kick) == s'
    ensures var s, s' := On(IrqOff, [PAUSE], Settling(1)), On(Halted, [PAUSE], Settling(1));
      Enabled(s, Check(1)) && Apply(s, Check(1)) == s'
  {
    assert ([PARK] + []) + [PAUSE] == [PARK] + [PAUSE] && [] + [PAUSE] == [PAUSE];
    assert Running(On(IrqOff, [PAUSE], Settling(1)), 1);
  }

  lemma PutMisses()
    ensures Reached(2, On(Halted, [PAUSE], Settling(1)), Nothing)
  {
    TickPasses();
    RoundAgain();
    PutThere();
    Move(2, On(AfterHalt, [], Ready), Nothing, Resume(1), On(Exit(NONE), [], Ready));
    ToTheCheck(2, On(Exit(NONE), [], Ready), Nothing, 1);
    Move(2, On(IrqOff, [], Ready), Nothing, Put(0, PAUSE), On(IrqOff, [PAUSE], Posted(0)));
    Move(2, On(IrqOff, [PAUSE], Posted(0)), Nothing, Kick, On(IrqOff, [PAUSE], Settling(1)));
    Move(2, On(IrqOff, [PAUSE], Settling(1)), Nothing, Check(1), On(Halted, [PAUSE], Settling(1)));
  }

  /** The call in which s is never returns: whatever happens, the controller polls. */
  ghost predicate NeverReturns(s: State) {
    forall steps :: RunFrom(s, steps) ==> After(s, steps).ctrl.Settling? && !Enabled(After(s, steps), SettleDone)
  }

  lemma MissedNeverReturns()
    ensures var s := On(Halted, [PAUSE], Settling(1)); Lost(s, 0) && NeverReturns(s)
  {
    var s := On(Halted, [PAUSE], Settling(1));
    assert Stuck(s, 0);
    forall steps | RunFrom(s, steps)
      ensures After(s, steps).ctrl.Settling? && !Enabled(After(s, steps), SettleDone)
    {
      LoneLostHangs(s, steps);
    }
  }

  /** In the code's own order, every action put straight behind a completed kstep_settle and every poll
      truthful, a wakeup can be lost, and then the session hangs whatever the machine does. */
  lemma TheCodesOrderCanLoseAWakeup()
    ensures exists s, since :: Reached(2, s, since) && Lost(s, 0) && NeverReturns(s)
  {
    PutMisses();
    MissedNeverReturns();
  }

  // ---- a wakeup behind the pass ----

  /** A machine with two test CPUs. */
  function Duo(tasks: seq<Task>, curr1: int, curr2: int, irq2: bool, ctrl: Ctrl): State {
    State(tasks, [IDLE, Cpu(curr1, false, false), Cpu(curr2, false, irq2)], 0, ctrl)
  }

  /** The first task, in its halt on CPU 1 or beyond with an action to read the channel. */
  function Reader(pc: Pc, run: Run): Task {
    var h := if pc == Halted then [PARK] else [PARK] + [CHAN_READ];
    Task(pc, run, 1, false, pc == Halted, [], h, h)
  }

  function Sleeping(): Task { Reader(Asleep(CHAN_READ), Off) }

  /** The second, on CPU 2. */
  function Halting(): Task { Task(Halted, Queued, 2, false, true, [], [PARK], [PARK]) }

  lemma DuoSettles(tasks: seq<Task>, curr1: int, curr2: int, ctrl: Ctrl)
    requires (tasks, curr1, curr2) in {([Reader(Halted, Queued)], 0, -1), ([Sleeping()], -1, -1), ([Sleeping(), Halting()], -1, 1)}
    ensures var s := Duo(tasks, curr1, curr2, false, ctrl);
      AllSettled(s) && Empty(s, 0) && s.(ctrl := Ready) == Duo(tasks, curr1, curr2, false, Ready)
  {
    var s := Duo(tasks, curr1, curr2, false, ctrl);
    assert Running(s, 1) ==> Curr(s, 1) == tasks[0];
    assert Running(s, 2) ==> Curr(s, 2) == tasks[1];
    assert forall t :: QueuedOn(s, t, 0) ==> t == 0 || t == 1;
  }

  lemma ReaderIsBorn()
    ensures var s, s1 := Boot(3), Boot(3).(tasks := Boot(3).tasks + [Parked(1)]);
      && s.ctrl == Ready && TestCpu(s, 1) && s.cpus[0] == IDLE && Empty(s, 0)
      && Sleeper(s1, 0, 1) && Empty(s1, 1) && HaltedOn(s1, 0, 1) == Duo([Reader(Halted, Queued)], 0, -1, false, Settling(1))
  {
    var s, s2 := Boot(3), Duo([Reader(Halted, Queued)], 0, -1, false, Settling(1));
    var s1 := s.(tasks := s.tasks + [Parked(1)]);
    assert s1.tasks == [Parked(1)] && s1.cpus == [IDLE, IDLE, IDLE];
    assert HaltedOn(s1, 0, 1).tasks == s2.tasks && HaltedOn(s1, 0, 1).cpus == s2.cpus;
  }

  lemma ReaderHalts()
    ensures Reached(3, Duo([Reader(Halted, Queued)], 0, -1, false, Ready), Nothing)
  {
    Booted(3);
    ReaderIsBorn();
    IsBorn(3, Boot(3), Changed, 1);
    IsWoken(3, Boot(3).(tasks := Boot(3).tasks + [Parked(1)]), Changed, 0, 1);
    DuoSettles([Reader(Halted, Queued)], 0, -1, Settling(1));
    Passes(3, Duo([Reader(Halted, Queued)], 0, -1, false, Settling(1)), Changed);
  }

  lemma FallsAsleep()
    ensures var s, s1 := Duo([Reader(Halted, Queued)], 0, -1, false, Ready), Duo([Reader(Exit(CHAN_READ), Queued)], 0, -1, false, Settling(1));
      AtItsRead(s, 1) && With(s, 1, Told(Curr(s, 1), CHAN_READ)).(ctrl := Settling(1)) == s1
    ensures var s1, s2 := Duo([Reader(Exit(CHAN_READ), Queued)], 0, -1, false, Settling(1)), Duo([Reader(User(CHAN_READ), Queued)], 0, -1, false, Settling(1));
      Enabled(s1, Leave(1)) && Apply(s1, Leave(1)) == s2
    ensures var s2, s3 := Duo([Reader(User(CHAN_READ), Queued)], 0, -1, false, Settling(1)), Duo([Sleeping()], -1, -1, false, Settling(1));
      Enabled(s2, CallSleep(1, -1)) && Apply(s2, CallSleep(1, -1)) == s3
  {
    var s := Duo([Reader(Halted, Queued)], 0, -1, false, Ready);
    assert Running(s, 1) && Curr(s, 1) == s.tasks[0];
    var s2 := Duo([Reader(User(CHAN_READ), Queued)], 0, -1, false, Settling(1));
    assert Running(s2, 1) && Curr(s2, 1) == s2.tasks[0];
    assert BeforeSwitch(s2, CallSleep(1, -1)).tasks == [Sleeping()];
    assert Empty(BeforeSwitch(s2, CallSleep(1, -1)), 1);
  }

  lemma ReaderSleeps()
    ensures Reached(3, Duo([Sleeping()], -1, -1, false, Ready), Nothing)
  {
    ReaderHalts();
    FallsAsleep();
    IsAsked(3, Duo([Reader(Halted, Queued)], 0, -1, false, Ready), 1, CHAN_READ);
    Move(3, Duo([Reader(Exit(CHAN_READ), Queued)], 0, -1, false, Settling(1)), Nothing, Leave(1),
      Duo([Reader(User(CHAN_READ), Queued)], 0, -1, false, Settling(1)));
    Move(3, Duo([Reader(User(CHAN_READ), Queued)], 0, -1, false, Settling(1)), Nothing, CallSleep(1, -1),
      Duo([Sleeping()], -1, -1, false, Settling(1)));
    DuoSettles([Sleeping()], -1, -1, Settling(1));
    Passes(3, Duo([Sleeping()], -1, -1, false, Settling(1)), Nothing);
  }

  /** The state before the call. */
  function Both(): State { Duo([Sleeping(), Halting()], -1, 1, false, Ready) }

  lemma WriterIsBorn()
    ensures var s := Duo([Sleeping()], -1, -1, false, Ready);
      var s1 := s.(tasks := s.tasks + [Parked(2)]);
      && TestCpu(s, 2) && s.cpus[0] == IDLE && Empty(s, 0)
      && Sleeper(s1, 1, 2) && Empty(s1, 2) && HaltedOn(s1, 1, 2) == Duo([Sleeping(), Halting()], -1, 1, false, Settling(1))
  {
    var s, s2 := Duo([Sleeping()], -1, -1, false, Ready), Duo([Sleeping(), Halting()], -1, 1, false, Settling(1));
    var s1 := s.(tasks := s.tasks + [Parked(2)]);
    assert s1.tasks == [Sleeping(), Parked(2)];
    assert HaltedOn(s1, 1, 2).tasks == s2.tasks && HaltedOn(s1, 1, 2).cpus == s2.cpus;
  }

  lemma BothAreThere()
    ensures Reached(3, Both(), Nothing)
  {
    ReaderSleeps();
    WriterIsBorn();
    var s := Duo([Sleeping()], -1, -1, false, Ready);
    IsBorn(3, s, Nothing, 2);
    IsWoken(3, s.(tasks := s.tasks + [Parked(2)]), Changed, 1, 2);
    DuoSettles([Sleeping(), Halting()], -1, 1, Settling(1));
    Passes(3, Duo([Sleeping(), Halting()], -1, 1, false, Settling(1)), Changed);
  }

  /** The second task asked to write, at pc, with the write still queued or not. */
  function Writing(reader: Task, pc: Pc, queued: bool, irq: bool, ctrl: Ctrl): State {
    var writer := Task(pc, Queued, 2, false, pc == Halted || pc == AfterHalt, if queued then [CHAN_WRITE] else [],
      [PARK] + [CHAN_WRITE], if queued then [PARK] else [PARK] + [CHAN_WRITE]);
    Duo([reader, writer], -1, 1, irq, ctrl)
  }

  /** Woken behind the pass. */
  function Coming(): Task { Reader(Exit(NONE), Waking) }

  /** The call in which s is can return with CPU c unsettled. */
  ghost predicate CanLeave(s: State, c: nat) {
    exists steps :: Returns(s, steps) && !CpuSettled(After(s, steps), c)
  }

  lemma Before(s: State, step: Step, s': State, c: nat)
    requires Enabled(s, step) && Rest(step) && Apply(s, step) == s' && CanLeave(s', c)
    ensures CanLeave(s, c)
  {
    var rest :| Returns(s', rest) && !CpuSettled(After(s', rest), c);
    Then(s, step, rest);
    assert Returns(s, [step] + rest);
  }

  lemma WriterGoes(pc: Pc, step: Step, next: Pc)
    requires (pc, step, next) in {(AfterHalt, Resume(2), Exit(NONE)), (Exit(NONE), Leave(2), User(NONE)), (User(NONE), Call(2), Take)}
    ensures var s, s' := Writing(Sleeping(), pc, true, false, Settling(2)), Writing(Sleeping(), next, true, false, Settling(2));
      Enabled(s, step) && Apply(s, step) == s'
  {
    var s, s' := Writing(Sleeping(), pc, true, false, Settling(2)), Writing(Sleeping(), next, true, false, Settling(2));
    assert Running(s, 2) && Curr(s, 2) == s.tasks[1];
    assert Apply(s, step).tasks == s'.tasks;
  }

  lemma WriterTakes()
    ensures var s, s' := Writing(Sleeping(), Take, true, false, Settling(2)), Writing(Sleeping(), Exit(CHAN_WRITE), false, false, Settling(2));
      Enabled(s, Read(2)) && Apply(s, Read(2)) == s'
    ensures var s, s' := Writing(Sleeping(), Exit(CHAN_WRITE), false, false, Settling(2)), Writing(Sleeping(), User(CHAN_WRITE), false, false, Settling(2));
      Enabled(s, Leave(2)) && Apply(s, Leave(2)) == s'
  {
    var s, s' := Writing(Sleeping(), Take, true, false, Settling(2)), Writing(Sleeping(), Exit(CHAN_WRITE), false, false, Settling(2));
    assert Running(s, 2) && Curr(s, 2) == s.tasks[1] && Running(s', 2);
    assert [CHAN_WRITE][1..] == [];
    assert Apply(s, Read(2)).tasks == s'.tasks;
  }

  lemma WriterReturns(pc: Pc, step: Step, next: Pc)
    requires (pc, step, next) in {(Exit(NONE), Leave(2), User(NONE)), (User(NONE), Call(2), Take), (Take, Read(2), IrqOff), (IrqOff, Check(2), Halted)}
    ensures var s, s' := Writing(Coming(), pc, false, false, Settling(2)), Writing(Coming(), next, false, false, Settling(2));
      Enabled(s, step) && Apply(s, step) == s'
  {
    var s, s' := Writing(Coming(), pc, false, false, Settling(2)), Writing(Coming(), next, false, false, Settling(2));
    assert Running(s, 2) && Curr(s, 2) == s.tasks[1];
    assert Apply(s, step).tasks == s'.tasks;
  }

  lemma ReturnsUnsettled()
    ensures CanLeave(Writing(Coming(), Halted, false, false, Settling(2)), 1)
  {
    var s, s' := Writing(Coming(), Halted, false, false, Settling(2)), Writing(Coming(), Halted, false, false, Settling(3));
    assert Running(s, 2) && Curr(s, 2) == s.tasks[1] && CpuSettled(s, 2);
    assert s'.tasks[0].run == Waking;
    assert Returns(s', []) && !CpuSettled(After(s', []), 1);
    Before(s, Poll, s', 1);
  }

  lemma WritesBehindThePass()
    ensures CanLeave(Writing(Sleeping(), User(CHAN_WRITE), false, false, Settling(2)), 1)
  {
    ReturnsUnsettled();
    WriterReturns(IrqOff, Check(2), Halted);
    Before(Writing(Coming(), IrqOff, false, false, Settling(2)), Check(2), Writing(Coming(), Halted, false, false, Settling(2)), 1);
    WriterReturns(Take, Read(2), IrqOff);
    Before(Writing(Coming(), Take, false, false, Settling(2)), Read(2), Writing(Coming(), IrqOff, false, false, Settling(2)), 1);
    WriterReturns(User(NONE), Call(2), Take);
    Before(Writing(Coming(), User(NONE), false, false, Settling(2)), Call(2), Writing(Coming(), Take, false, false, Settling(2)), 1);
    WriterReturns(Exit(NONE), Leave(2), User(NONE));
    Before(Writing(Coming(), Exit(NONE), false, false, Settling(2)), Leave(2), Writing(Coming(), User(NONE), false, false, Settling(2)), 1);
    WakesIt();
    Before(Writing(Sleeping(), User(CHAN_WRITE), false, false, Settling(2)), CallWake(2, 0, 1),
      Writing(Coming(), Exit(NONE), false, false, Settling(2)), 1);
  }

  lemma WakesIt()
    ensures var s, s' := Writing(Sleeping(), User(CHAN_WRITE), false, false, Settling(2)), Writing(Coming(), Exit(NONE), false, false, Settling(2));
      Enabled(s, CallWake(2, 0, 1)) && Apply(s, CallWake(2, 0, 1)) == s'
  {
    var s, s' := Writing(Sleeping(), User(CHAN_WRITE), false, false, Settling(2)), Writing(Coming(), Exit(NONE), false, false, Settling(2));
    assert Running(s, 2) && Curr(s, 2) == s.tasks[1];
    assert Apply(s, CallWake(2, 0, 1)).tasks == s'.tasks;
  }

  lemma GoesToWrite()
    ensures CanLeave(Writing(Sleeping(), AfterHalt, true, false, Settling(2)), 1)
  {
    WritesBehindThePass();
    WriterTakes();
    Before(Writing(Sleeping(), Exit(CHAN_WRITE), false, false, Settling(2)), Leave(2), Writing(Sleeping(), User(CHAN_WRITE), false, false, Settling(2)), 1);
    Before(Writing(Sleeping(), Take, true, false, Settling(2)), Read(2), Writing(Sleeping(), Exit(CHAN_WRITE), false, false, Settling(2)), 1);
    WriterGoes(User(NONE), Call(2), Take);
    Before(Writing(Sleeping(), User(NONE), true, false, Settling(2)), Call(2), Writing(Sleeping(), Take, true, false, Settling(2)), 1);
    WriterGoes(Exit(NONE), Leave(2), User(NONE));
    Before(Writing(Sleeping(), Exit(NONE), true, false, Settling(2)), Leave(2), Writing(Sleeping(), User(NONE), true, false, Settling(2)), 1);
    WriterGoes(AfterHalt, Resume(2), Exit(NONE));
    Before(Writing(Sleeping(), AfterHalt, true, false, Settling(2)), Resume(2), Writing(Sleeping(), Exit(NONE), true, false, Settling(2)), 1);
  }

  /** The call's own steps up to the poll of CPU 1, which idles. */
  lemma AsksIt()
    ensures var s, s' := Both(), Writing(Sleeping(), Halted, true, false, Posted(1));
      Enabled(s, Put(1, CHAN_WRITE)) && Apply(s, Put(1, CHAN_WRITE)) == s'
    ensures var s, s' := Writing(Sleeping(), Halted, true, false, Posted(1)), Writing(Sleeping(), Halted, true, true, Kicking(2));
      Enabled(s, Kick) && Apply(s, Kick) == s'
    ensures var s, s' := Writing(Sleeping(), Halted, true, true, Kicking(2)), Writing(Sleeping(), AfterHalt, true, false, Kicking(2));
      Enabled(s, Irq(2)) && Apply(s, Irq(2)) == s'
  {
    assert [] + [CHAN_WRITE] == [CHAN_WRITE];
    assert Apply(Both(), Put(1, CHAN_WRITE)).tasks == Writing(Sleeping(), Halted, true, false, Posted(1)).tasks;
    var s := Writing(Sleeping(), Halted, true, true, Kicking(2));
    assert Running(s, 2) && Curr(s, 2) == s.tasks[1];
    assert Apply(s, Irq(2)).tasks == Writing(Sleeping(), AfterHalt, true, false, Kicking(2)).tasks;
  }

  lemma PollsTheIdle()
    ensures var s, s' := Writing(Sleeping(), AfterHalt, true, false, Settling(1)), Writing(Sleeping(), AfterHalt, true, false, Settling(2));
      Enabled(s, Poll) && Apply(s, Poll) == s'
  {
    assert Empty(Writing(Sleeping(), AfterHalt, true, false, Settling(1)), 1);
  }

  lemma BothRest()
    ensures Resting(Both())
  {
    var s := Both();
    assert Running(s, 2) && Curr(s, 2) == s.tasks[1];
    assert QueuedOn(s, 1, 2);
    forall t, c | QueuedOn(s, t, c)
      ensures t == 1 && c == 2
    {}
    assert TaskOk(s, 0) && TaskOk(s, 1);
    assert CpuOk(s, 0) && CpuOk(s, 1) && CpuOk(s, 2);
    assert Quiet(s, 0) && Quiet(s, 1) && Quiet(s, 2);
  }

  /** A call in the code's own order, begun with every CPU settled and quiet, that returns with CPU 1 unsettled:
      its pass polls CPU 1 and then sees CPU 2 through the write that wakes a reader onto CPU 1. */
  lemma OnePassIsNotEnough()
    ensures exists s :: Reached(3, s, Nothing) && Resting(s) && Enabled(s, Put(1, CHAN_WRITE)) && CanLeave(Apply(s, Put(1, CHAN_WRITE)), 1)
  {
    BothAreThere();
    BothRest();
    GoesToWrite();
    AsksIt();
    PollsTheIdle();
    Before(Writing(Sleeping(), AfterHalt, true, false, Settling(1)), Poll, Writing(Sleeping(), AfterHalt, true, false, Settling(2)), 1);
    Before(Writing(Sleeping(), AfterHalt, true, false, Kicking(2)), Kicked, Writing(Sleeping(), AfterHalt, true, false, Settling(1)), 1);
    Before(Writing(Sleeping(), Halted, true, true, Kicking(2)), Irq(2), Writing(Sleeping(), AfterHalt, true, false, Kicking(2)), 1);
    Before(Writing(Sleeping(), Halted, true, false, Posted(1)), Kick, Writing(Sleeping(), Halted, true, true, Kicking(2)), 1);
    assert CanLeave(Apply(Both(), Put(1, CHAN_WRITE)), 1);
  }
}
