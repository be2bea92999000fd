/** What a settled CPU, and a whole pass of kstep_settle, are worth: exactly when "settled" stays true,
    when one pass leaves every CPU settled at once, and exactly which puts can lose a wakeup. */
module SettlePass {
  import opened Control
  import opened Settle
  import opened SettleSafety
  import opened SettleSpin

  // ---- when settled stays settled ----

  /** Settled, and really in the halt with no interrupt on its way: the flag is cleared only after the
      halt has ended, so kstep_cpu_settled is also true in the instant in between. */
  ghost predicate Quiet(s: State, c: int) {
    CpuSettled(s, c) && (Running(s, c) ==> Curr(s, c).pc == Halted && !s.cpus[c].irq)
  }

  /** The step wakes a task onto c. */
  predicate WakesOnto(step: Step, c: int) { step.CallWake? && step.home == c }

  /** A step of another CPU leaves c and what runs there alone, and brings no task to c that was not
      already on its way. */
  ghost predicate Apart(s: State, s': State, c: nat) {
    && |s'.tasks| == |s.tasks| && |s'.cpus| == |s.cpus| && s'.ctrl == s.ctrl
    && c < |s.cpus| && s'.cpus[c] == s.cpus[c]
    && (Running(s, c) ==> s'.tasks[s.cpus[c].curr] == Curr(s, c))
    && forall u :: TaskId(s, u) && s'.tasks[u].cpu == c && s'.tasks[u].run != Off ==>
         s.tasks[u].cpu == c && s.tasks[u].run == s'.tasks[u].run
  }

  predicate Steady(s: State, c: nat, d: nat) {
    && c < |s.cpus| && d < |s.cpus| && c != d
    && (Running(s, c) ==> Curr(s, c).run == Queued && Curr(s, c).cpu == c && !Curr(s, c).pc.Asleep? && s.cpus[d].curr != s.cpus[c].curr)
  }

  lemma LoopStepsApart(s: State, step: Step, c: nat)
    requires Enabled(s, step) && (step.Leave? || step.Handle? || step.Call? || step.Read? || step.Check? || step.Resume?)
    requires Steady(s, c, step.c)
    ensures Apart(s, Apply(s, step), c)
  {}

  lemma WakeStepsApart(s: State, step: Step, c: nat)
    requires Enabled(s, step) && (step.CallWake? || step.Irq? || step.Activate?)
    requires Steady(s, c, step.c) && !WakesOnto(step, c)
    ensures Apart(s, Apply(s, step), c)
  {}

  lemma SwitchStepsApart(s: State, step: Step, c: nat)
    requires Enabled(s, step) && (step.CallSleep? || step.ReadPark? || step.Resched?)
    requires Steady(s, c, step.c)
    ensures Apart(s, Apply(s, step), c)
  {}

  /** Nothing of its own is left for a CPU that halts with no interrupt in flight. */
  lemma HaltedTakesNoStep(s: State, step: Step, c: nat)
    requires Enabled(s, step) && Internal(step) && step.c == c
    requires Running(s, c) && Curr(s, c).pc == Halted && !s.cpus[c].irq
    ensures step.Activate?
  {}

  lemma QuietStays(s: State, step: Step, c: nat)
    requires Inv(s) && Enabled(s, step) && Internal(step) && Quiet(s, c) && !WakesOnto(step, c)
    ensures Quiet(Apply(s, step), c)
  {
    var s' := Apply(s, step);
    var t := s.cpus[c].curr;
    assert CpuOk(s, c);
    if step.c == c {
      if Running(s, c) {
        HaltedTakesNoStep(s, step, c);
      }
      assert t == -1 && step.Irq?;
      assert forall u :: QueuedOn(s', u, c) <==> QueuedOn(s, u, c);
    } else {
      if Running(s, c) {
        assert TaskOk(s, t);
        OnlyThere(s, c);
      }
      StepsApart(s, step, c);
      forall u
        ensures QueuedOn(s', u, c) ==> QueuedOn(s, u, c)
      {}
    }
  }

  lemma StepsApart(s: State, step: Step, c: nat)
    requires Enabled(s, step) && Internal(step)
    requires Steady(s, c, step.c) && !WakesOnto(step, c)
    ensures Apart(s, Apply(s, step), c)
  {
    if step.CallSleep? || step.ReadPark? || step.Resched? {
      SwitchStepsApart(s, step, c);
    } else if step.CallWake? || step.Irq? || step.Activate? {
      WakeStepsApart(s, step, c);
    } else {
      LoopStepsApart(s, step, c);
    }
  }

  ghost predicate Undisturbed(steps: seq<Step>, c: int) {
    forall i :: 0 <= i < |steps| ==> Internal(steps[i]) && !WakesOnto(steps[i], c)
  }

  lemma {:induction false} QuietStaysAlong(s: State, steps: seq<Step>, c: nat)
    requires Inv(s) && RunFrom(s, steps) && Undisturbed(steps, c) && Quiet(s, c)
    ensures Quiet(After(s, steps), c)
    decreases |steps|
  {
    if steps != [] {
      assert Internal(steps[0]) && !WakesOnto(steps[0], c);
      QuietStays(s, steps[0], c);
      StepKeepsInv(s, steps[0]);
      QuietStaysAlong(Apply(s, steps[0]), steps[1..], c);
    }
  }

  ghost predicate StaysSettled(s: State, c: nat) {
    forall steps :: RunFrom(s, steps) && Undisturbed(steps, c) ==> CpuSettled(After(s, steps), c)
  }

  /** A CPU that tests settled stays so, short of a wakeup onto it or a new controller action, if and
      only if its task is really in the halt with no interrupt in flight. */
  lemma SettledStaysExactlyWhenQuiet(s: State, c: nat)
    requires Inv(s) && CpuSettled(s, c)
    ensures StaysSettled(s, c) <==> Quiet(s, c)
  {
    if Quiet(s, c) {
      forall steps | RunFrom(s, steps) && Undisturbed(steps, c)
        ensures CpuSettled(After(s, steps), c)
      {
        QuietStaysAlong(s, steps, c);
      }
    } else {
      assert CpuOk(s, c) && TaskOk(s, s.cpus[c].curr);
      var s1 := if Curr(s, c).pc == AfterHalt then s else Apply(s, Irq(c));
      Then(s1, Resume(c), []);
      var steps := [Resume(c)] + [];
      if s1 != s {
        Then(s, Irq(c), steps);
        steps := [Irq(c)] + steps;
      }
      assert !CpuSettled(After(s, steps), c);
    }
  }

  // ---- one pass over the CPUs ----

  /** Every CPU is quiet when its poll passes, and nobody wakes a task onto one already passed. */
  ghost predicate CleanPass(s: State, steps: seq<Step>)
    requires RunFrom(s, steps)
    decreases |steps|
  {
    steps == [] ||
    (&& (Internal(steps[0]) || steps[0] == Poll)
     && s.ctrl.Settling?
     && (steps[0] == Poll ==> Quiet(s, s.ctrl.c))
     && (steps[0].CallWake? ==> steps[0].home >= s.ctrl.c)
     && CleanPass(Apply(s, steps[0]), steps[1..]))
  }

  ghost predicate PassedQuiet(s: State) {
    s.ctrl.Settling? && forall c :: 1 <= c < s.ctrl.c && c < |s.cpus| ==> Quiet(s, c)
  }

  lemma PassStep(s: State, step: Step)
    requires Inv(s) && PassedQuiet(s) && Enabled(s, step)
    requires Internal(step) || (step == Poll && Quiet(s, s.ctrl.c))
    requires step.CallWake? ==> step.home >= s.ctrl.c
    ensures PassedQuiet(Apply(s, step)) && Inv(Apply(s, step)) && |Apply(s, step).cpus| == |s.cpus|
  {
    var s' := Apply(s, step);
    StepKeepsInv(s, step);
    if Internal(step) {
      InternalKeepsCtrl(s, step);
      forall c | 1 <= c < s.ctrl.c && c < |s.cpus|
        ensures Quiet(s', c)
      {
        QuietStays(s, step, c);
      }
    } else {
      forall c | 1 <= c < s'.ctrl.c && c < |s.cpus|
        ensures Quiet(s', c)
      {
        assert Quiet(s, c);
        assert forall t :: QueuedOn(s', t, c) <==> QueuedOn(s, t, c);
      }
    }
  }

  /** Then the pass returns with every test CPU settled at the same time. */
  lemma {:induction false} OnePassSettlesAll(s: State, steps: seq<Step>)
    requires Inv(s) && PassedQuiet(s) && RunFrom(s, steps) && CleanPass(s, steps)
    ensures var s' := After(s, steps);
      PassedQuiet(s') && (Enabled(s', SettleDone) ==> forall c :: TestCpu(s', c) ==> CpuSettled(s', c))
    decreases |steps|
  {
    if steps != [] {
      PassStep(s, steps[0]);
      OnePassSettlesAll(Apply(s, steps[0]), steps[1..]);
    } else if Enabled(s, SettleDone) {
      assert forall c :: TestCpu(s, c) ==> Quiet(s, c);
    }
  }

  // ---- which puts can lose a wakeup ----

  ghost predicate CanLose(s: State, t: nat) {
    exists steps :: RunFrom(s, steps) && Disciplined(s, steps) && Lost(After(s, steps), t)
  }

  /** A put is safe whenever its target's CPU tests settled at that moment. */
  lemma SettledIsOutsideTheWindow(s: State, t: nat)
    requires Inv(s) && TaskId(s, t) && CpuSettled(s, s.tasks[t].cpu)
    ensures !InWindow(s, t)
  {
    assert TaskOk(s, t);
  }

  /** Every action is put while its target's CPU tests settled. */
  ghost predicate PutsWhenSettled(s: State, steps: seq<Step>)
    requires RunFrom(s, steps)
    decreases |steps|
  {
    steps == [] ||
    ((steps[0].Put? ==> CpuSettled(s, s.tasks[steps[0].t].cpu)) && PutsWhenSettled(Apply(s, steps[0]), steps[1..]))
  }

  lemma {:induction false} SettledPutsAreDisciplined(s: State, steps: seq<Step>)
    requires Inv(s) && RunFrom(s, steps) && PutsWhenSettled(s, steps)
    ensures Disciplined(s, steps)
    decreases |steps|
  {
    if steps != [] {
      if steps[0].Put? {
        SettledIsOutsideTheWindow(s, steps[0].t);
      }
      StepKeepsInv(s, steps[0]);
      SettledPutsAreDisciplined(Apply(s, steps[0]), steps[1..]);
    }
  }

  /** So on every run from boot in which it is so, no wakeup is ever lost. */
  lemma SettledPutsLoseNothing(n: nat, steps: seq<Step>, t: int)
    requires RunFrom(Boot(n), steps) && PutsWhenSettled(Boot(n), steps)
    ensures !Lost(After(Boot(n), steps), t)
  {
    SettledPutsAreDisciplined(Boot(n), steps);
    NoLostWakeup(n, steps, t);
  }

  /** Once quiet, a CPU keeps its tasks out of the window for as long as nothing wakes a task onto it. */
  lemma QuietKeepsPutsSafe(s: State, steps: seq<Step>, t: nat)
    requires Inv(s) && RunFrom(s, steps) && TaskId(After(s, steps), t)
    requires var c := After(s, steps).tasks[t].cpu; Undisturbed(steps, c) && Quiet(s, c)
    ensures !InWindow(After(s, steps), t)
  {
    QuietStaysAlong(s, steps, After(s, steps).tasks[t].cpu);
    InternalRunsAreShort(s, steps);
    SettledIsOutsideTheWindow(After(s, steps), t);
  }

  lemma PutInTheWindowLoses(s: State, t: nat, act: Act)
    requires Inv(s) && Enabled(s, Put(t, act)) && InWindow(s, t)
    ensures CanLose(Apply(s, Put(t, act)), t)
  {
    var s1, c := Apply(s, Put(t, act)), s.tasks[t].cpu;
    assert TaskOk(s, t);
    var steps := [Kick] + ([Check(c)] + []);
    Then(Apply(s1, Kick), Check(c), []);
    Then(s1, Kick, [Check(c)] + []);
    assert Disciplined(Apply(s1, Kick), steps[1..]) by { assert steps[1..][1..] == []; }
    assert Lost(After(s1, steps), t);
  }

  lemma PutElsewhereLosesNothing(s: State, t: nat, act: Act)
    requires Inv(s) && Enabled(s, Put(t, act)) && !InWindow(s, t)
    ensures !CanLose(Apply(s, Put(t, act)), t)
  {
    var s1 := Apply(s, Put(t, act));
    PutKeeps(s, t, act);
    forall steps | RunFrom(s1, steps) && Disciplined(s1, steps)
      ensures !Lost(After(s1, steps), t)
    {
      RunKeepsInv(s1, steps);
      assert TaskId(After(s1, steps), t) ==> TaskOk(After(s1, steps), t);
    }
  }

  /** A put can end in a task that halts with the action still queued and nobody to wake it if and only
      if it falls in the task's window: between finding its queue empty and setting its flag. */
  lemma PutLosesExactlyInTheWindow(s: State, t: nat, act: Act)
    requires Inv(s) && Enabled(s, Put(t, act))
    ensures CanLose(Apply(s, Put(t, act)), t) <==> InWindow(s, t)
  {
    if InWindow(s, t) {
      PutInTheWindowLoses(s, t, act);
    } else {
      PutElsewhereLosesNothing(s, t, act);
    }
  }

  // ---- and what a lost wakeup leads to ----

  /** t is in the halt on its CPU with something to do and no interrupt on its way, and nobody comes. */
  ghost predicate Stuck(s: State, t: nat) {
    && Lost(s, t) && s.tasks[t].run == Queued && s.cpus[s.tasks[t].cpu].curr == t
    && (forall d: nat :: d < |s.cpus| && d != s.tasks[t].cpu ==> s.cpus[d].curr != t)
    && forall u :: TaskId(s, u) && s.tasks[u].cpu == s.tasks[t].cpu ==> s.tasks[u].run != Waking
  }

  lemma OthersLeaveItRunning(s: State, step: Step, t: nat)
    requires Stuck(s, t) && Enabled(s, step) && Internal(step) && step.c != s.tasks[t].cpu
    requires forall d: nat :: d < |s.cpus| && d != step.c ==> Apply(s, step).cpus[d] == s.cpus[d]
    ensures step.c < |Apply(s, step).cpus| && Apply(s, step).cpus[step.c].curr != t
  {}

  lemma OnlyItsCpuChanges(s: State, step: Step)
    requires Enabled(s, step) && Internal(step)
    ensures |Apply(s, step).cpus| == |s.cpus|
    ensures forall d: nat :: d < |s.cpus| && d != step.c ==> Apply(s, step).cpus[d] == s.cpus[d]
  {}

  lemma StuckStays(s: State, t: nat, step: Step)
    requires Stuck(s, t) && Enabled(s, step) && (Internal(step) || step == Poll) && !WakesOnto(step, s.tasks[t].cpu)
    ensures Stuck(Apply(s, step), t) && Apply(s, step).tasks[t] == s.tasks[t]
  {
    var c := s.tasks[t].cpu;
    if Internal(step) {
      if step.c == c {
        HaltedTakesNoStep(s, step, c);
      }
      StepsApart(s, step, c);
      OnlyItsCpuChanges(s, step);
      OthersLeaveItRunning(s, step, t);
    }
  }

  lemma StuckIsUnsettled(s: State, t: nat)
    requires Stuck(s, t)
    ensures !CpuSettled(s, s.tasks[t].cpu)
  {}

  /** A lost wakeup hangs the spin: on every run from there, whatever the other CPUs do short of waking a task
      onto this one, the task stays in its halt, its CPU never tests settled, and the controller never gets
      past it: it polls for good. */
  lemma {:induction false} LostHangsTheSpin(s: State, t: nat, steps: seq<Step>)
    requires Stuck(s, t) && s.ctrl.Settling? && s.ctrl.c <= s.tasks[t].cpu && RunFrom(s, steps)
    requires forall i :: 0 <= i < |steps| ==> !WakesOnto(steps[i], s.tasks[t].cpu)
    ensures var s', c := After(s, steps), s.tasks[t].cpu;
      Stuck(s', t) && s'.tasks[t] == s.tasks[t] && !CpuSettled(s', c) && s'.ctrl.Settling? && s'.ctrl.c <= c
    decreases |steps|
  {
    StuckIsUnsettled(s, t);
    if steps != [] {
      var step, s1 := steps[0], Apply(s, steps[0]);
      assert !WakesOnto(step, s.tasks[t].cpu);
      assert Internal(step) || step == Poll;
      StuckStays(s, t, step);
      if Internal(step) {
        InternalKeepsCtrl(s, step);
      }
      LostHangsTheSpin(s1, t, steps[1..]);
    }
  }

  lemma LoneStuckStays(s: State, step: Step)
    requires Stuck(s, 0) && |s.tasks| == 1 && Enabled(s, step)
    ensures !step.CallWake?
    ensures Internal(step) || step == Poll ==> |Apply(s, step).tasks| == 1
  {}

  /** With no other task there is nobody to wake one onto it, and nothing to ask of the run. */
  lemma {:induction false} LoneLostHangs(s: State, steps: seq<Step>)
    requires Stuck(s, 0) && |s.tasks| == 1 && s.ctrl.Settling? && s.ctrl.c <= s.tasks[0].cpu && RunFrom(s, steps)
    ensures var s', c := After(s, steps), s.tasks[0].cpu;
      Lost(s', 0) && !CpuSettled(s', c) && s'.ctrl.Settling? && s'.ctrl.c <= c
    decreases |steps|
  {
    StuckIsUnsettled(s, 0);
    if steps != [] {
      var step, s1 := steps[0], Apply(s, steps[0]);
      LoneStuckStays(s, step);
      assert Internal(step) || step == Poll;
      StuckStays(s, 0, step);
      if Internal(step) {
        InternalKeepsCtrl(s, step);
      }
      LoneLostHangs(s1, steps[1..]);
    }
  }
}
