/** The generator's mirror simulates the executor's tables: along every run whose task operations find
    their task ready, each cgroup operation the generator offers passes the executor's checks. */
module Simulation {
  import opened Lists
  import opened Mirror
  import opened MirrorOps
  import opened Executor

  datatype Op =
    | CgCreate(parent: int, child: int)
    | CgCpuset(id: int, begin: int, end: int)
    | CgWeight(id: int, weight: int)
    | CgAdd(id: int, task: int)
    | CgDestroy(id: int)
    | CgMoveRoot(id: int, task: int)
    | TCreate(task: int)
    | TFork(task: int, child: int)
    | TFifo(task: int)

  /** What the generator may pick; its task list is the one the executor last reported. */
  predicate Offered(m: Mirror, e: Tables, op: Op)
    requires Shape(e)
  {
    match op
    case CgCreate(parent, child) => ValidId(child) && child !in m.cgroups && (parent == -1 || parent in m.cgroups)
    case CgCpuset(id, begin, end) => id in m.cgroups && 1 <= begin <= end <= m.cpus - 1
    case CgWeight(id, weight) => id in m.cgroups && 1 <= weight <= 10000
    case CgAdd(id, task) => id in m.leaves && Live(e, task)
    case CgDestroy(id) => id in m.leaves
    case CgMoveRoot(id, task) => task in m.tasks && id == m.tasks[task]
    case TCreate(task) => ValidId(task) && !Live(e, task)
    case TFork(task, child) => Live(e, task) && ValidId(child) && !Live(e, child)
    case TFifo(task) => Live(e, task)
  }

  /** What picking it does to the mirror, before the operation is even sent. */
  ghost function Emit(m: Mirror, op: Op): Mirror
    requires Good(m)
    requires op.CgCreate? ==> op.parent == -1 || op.parent in m.cgroups
    requires op.CgCpuset? ==> op.id in m.cgroups
  {
    match op
    case CgCreate(parent, child) => Added(m, parent, child)
    case CgCpuset(id, begin, end) => Recut(m, id, (begin, end))
    case CgWeight(_, _) => m
    case CgAdd(id, task) => Placed(m, id, task)
    case CgDestroy(id) => Removed(m, id)
    case CgMoveRoot(_, task) => Unplaced(m, task)
    case TCreate(_) => m
    case TFork(task, child) => if task in m.tasks then Placed(m, m.tasks[task], child) else m
    case TFifo(task) => Unplaced(m, task)
  }

  /** What the executor does with it; ready is whether the task of a fork or a FIFO switch is running. */
  function Exec(e: Tables, ncpus: nat, op: Op, ready: bool): (r: (Tables, bool))
    requires Shape(e)
    ensures Shape(r.0)
  {
    match op
    case CgCreate(parent, child) => Create(e, parent, child)
    case CgCpuset(id, begin, end) => (e, SetCpuset(e, ncpus, id, begin, end))
    case CgWeight(id, weight) => (e, SetWeight(e, id, weight))
    case CgAdd(id, task) => AddTask(e, id, task)
    case CgDestroy(id) => Destroy(e, id)
    case CgMoveRoot(id, task) => MoveRoot(e, id, task)
    case TCreate(task) => TaskCreate(e, task)
    case TFork(task, child) => if ready then TaskFork(e, task, child) else (e, false)
    case TFifo(task) => if ready then TaskFifo(e, task) else (e, false)
  }

  // ---- the simulation ----

  ghost predicate SameCgroups(m: Mirror, e: Tables)
    requires Shape(e)
  {
    && (forall x :: x in m.cgroups <==> Exists(e, x))
    && forall x :: x in m.cgroups ==> Exists(e, x) && e.parent[x] == m.cgroups[x].parent
  }

  predicate SameTask(m: Mirror, e: Tables, t: int)
    requires Shape(e)
  {
    if t in m.tasks then Live(e, t) && e.cgroup[t] == m.tasks[t] else Live(e, t) ==> e.cgroup[t] == -1
  }

  ghost predicate Sim(m: Mirror, e: Tables)
    requires Shape(e)
  {
    SameCgroups(m, e) && forall t :: SameTask(m, e, t)
  }

  /** The leaf list is the executor's own notion of a leaf. */
  lemma LeavesAgree(m: Mirror, e: Tables, x: int)
    requires Good(m) && Shape(e) && Sim(m, e)
    ensures x in m.leaves <==> Exists(e, x) && IsLeaf(e, x)
  {
    assert x in m.leaves <==> Childless(m, x);
    if Exists(e, x) && IsLeaf(e, x) {
      forall y | y in m.cgroups
        ensures m.cgroups[y].parent != x
      {
        assert Exists(e, y);
      }
    }
    if Childless(m, x) {
      forall i | 0 <= i < MAX && e.exist[i]
        ensures e.parent[i] != x
      {
        assert Exists(e, i);
      }
    }
  }

  // ---- the walk to the root always ends, in room ----

  lemma {:induction false} ChainEnds(m: Mirror, e: Tables, id: int, room: nat)
    requires Tree(m.order, Parents(m.cgroups)) && Shape(e) && SameCgroups(m, e)
    requires id in m.cgroups && Pos(m.order, id) < room
    ensures Chain(e, id, room).0
    decreases room
  {
    var parents := Parents(m.cgroups);
    assert parents[id] == e.parent[id] && ParentFirst(m.order, parents, id);
    if parents[id] != -1 {
      ChainEnds(m, e, parents[id], room - 1);
    }
  }

  lemma NameBuilds(m: Mirror, e: Tables, id: int)
    requires Tree(m.order, Parents(m.cgroups)) && Shape(e) && SameCgroups(m, e) && id in m.cgroups
    ensures NameOk(e, id)
  {
    forall x | x in m.order
      ensures 0 <= x < MAX
    {
      assert x in Parents(m.cgroups) && Exists(e, x);
    }
    DistinctFits(m.order, MAX);
    assert id in Parents(m.cgroups);
    ChainEnds(m, e, id, MAX);
  }

  // ---- one operation ----

  lemma CreateSimulates(m: Mirror, e: Tables, parent: int, child: int)
    requires Good(m) && Shape(e) && Sim(m, e) && Offered(m, e, CgCreate(parent, child))
    ensures Create(e, parent, child).1 && Sim(Added(m, parent, child), Create(e, parent, child).0)
  {
    var m', e' := Added(m, parent, child), Create(e, parent, child).0;
    var e1 := e.(exist := e.exist[child := true], parent := e.parent[child := parent]);
    AddedIsGood(m, parent, child);
    forall x
      ensures x in m'.cgroups <==> Exists(e1, x)
      ensures x in m'.cgroups ==> e1.parent[x] == m'.cgroups[x].parent
    {
      assert x in m.cgroups <==> Exists(e, x);
    }
    NameBuilds(m', e1, child);
    forall t
      ensures SameTask(m', e', t)
    {
      assert SameTask(m, e, t);
    }
  }

  lemma DestroySimulates(m: Mirror, e: Tables, id: int)
    requires Good(m) && Shape(e) && Sim(m, e) && Offered(m, e, CgDestroy(id))
    ensures Destroy(e, id).1 && Sim(Removed(m, id), Destroy(e, id).0)
  {
    var m', e' := Removed(m, id), Destroy(e, id).0;
    LeavesAgree(m, e, id);
    NameBuilds(m, e, id);
    forall x
      ensures x in m'.cgroups <==> Exists(e', x)
      ensures x in m'.cgroups ==> e'.parent[x] == m'.cgroups[x].parent
    {
      assert x in m.cgroups <==> Exists(e, x);
    }
    forall t
      ensures SameTask(m', e', t)
    {
      assert SameTask(m, e, t);
    }
  }

  lemma AddSimulates(m: Mirror, e: Tables, id: int, task: int)
    requires Good(m) && Shape(e) && Sim(m, e) && Offered(m, e, CgAdd(id, task))
    ensures AddTask(e, id, task).1 && Sim(Placed(m, id, task), AddTask(e, id, task).0)
  {
    LeavesAgree(m, e, id);
    NameBuilds(m, e, id);
    forall t
      ensures SameTask(Placed(m, id, task), AddTask(e, id, task).0, t)
    {
      assert SameTask(m, e, t);
    }
    assert forall x :: x in m.cgroups <==> Exists(e, x);
  }

  lemma MoveRootSimulates(m: Mirror, e: Tables, id: int, task: int)
    requires Good(m) && Shape(e) && Sim(m, e) && Offered(m, e, CgMoveRoot(id, task))
    ensures MoveRoot(e, id, task).1 && Sim(Unplaced(m, task), MoveRoot(e, id, task).0)
  {
    LeavesAgree(m, e, id);
    assert SameTask(m, e, task);
    forall t
      ensures SameTask(Unplaced(m, task), MoveRoot(e, id, task).0, t)
    {
      assert SameTask(m, e, t);
    }
    assert forall x :: x in m.cgroups <==> Exists(e, x);
  }

  lemma SettingsSimulate(m: Mirror, e: Tables, op: Op)
    requires Good(m) && Shape(e) && Sim(m, e) && Offered(m, e, op) && (op.CgCpuset? || op.CgWeight?)
    ensures Exec(e, m.cpus, op, true).1 && Sim(Emit(m, op), e)
  {
    NameBuilds(m, e, op.id);
    assert forall x :: x in m.cgroups <==> Exists(e, x);
    if op.CgCpuset? {
      RecutIsFresh(m, op.id, (op.begin, op.end));
    }
    forall t
      ensures SameTask(Emit(m, op), e, t)
    {
      assert SameTask(m, e, t);
    }
  }

  lemma TasksSimulate(m: Mirror, e: Tables, op: Op)
    requires Good(m) && Shape(e) && Sim(m, e) && Offered(m, e, op) && (op.TCreate? || op.TFork? || op.TFifo?)
    ensures Exec(e, m.cpus, op, true).1 && Sim(Emit(m, op), Exec(e, m.cpus, op, true).0)
  {
    forall t
      ensures SameTask(Emit(m, op), Exec(e, m.cpus, op, true).0, t)
    {
      assert SameTask(m, e, t) && SameTask(m, e, op.task);
    }
    assert forall x :: x in m.cgroups <==> Exists(e, x);
  }

  lemma EmitIsGood(m: Mirror, e: Tables, op: Op)
    requires Good(m) && Shape(e) && Offered(m, e, op)
    ensures Good(Emit(m, op)) && Emit(m, op).cpus == m.cpus
  {
    match op
    case CgCreate(parent, child) => AddedIsGood(m, parent, child);
    case CgCpuset(id, begin, end) => RecutIsGood(m, id, (begin, end));
    case CgWeight(_, _) =>
    case CgAdd(id, task) => PlacedIsGood(m, id, task);
    case CgDestroy(id) => RemovedIsGood(m, id);
    case CgMoveRoot(_, task) => UnplacedIsGood(m, task);
    case TCreate(_) =>
    case TFork(task, child) => if task in m.tasks { PlacedIsGood(m, m.tasks[task], child); }
    case TFifo(task) => UnplacedIsGood(m, task);
  }

  lemma StepSimulates(m: Mirror, e: Tables, op: Op)
    requires Good(m) && Shape(e) && Sim(m, e) && Offered(m, e, op)
    ensures Exec(e, m.cpus, op, true).1 && Sim(Emit(m, op), Exec(e, m.cpus, op, true).0)
  {
    match op
    case CgCreate(parent, child) => CreateSimulates(m, e, parent, child);
    case CgCpuset(_, _, _) => SettingsSimulate(m, e, op);
    case CgWeight(_, _) => SettingsSimulate(m, e, op);
    case CgAdd(id, task) => AddSimulates(m, e, id, task);
    case CgDestroy(id) => DestroySimulates(m, e, id);
    case CgMoveRoot(id, task) => MoveRootSimulates(m, e, id, task);
    case TCreate(_) => TasksSimulate(m, e, op);
    case TFork(_, _) => TasksSimulate(m, e, op);
    case TFifo(_) => TasksSimulate(m, e, op);
  }

  // ---- a refused operation, and the exact harm in it ----

  /** The mirror has been changed for an operation that the executor then may not carry out. */
  predicate Harmless(m: Mirror, op: Op, ready: bool) {
    (op.TFork? || op.TFifo?) && !ready ==> op.task !in m.tasks
  }

  lemma SimulatesExactlyWhenHarmless(m: Mirror, e: Tables, op: Op, ready: bool)
    requires Good(m) && Shape(e) && Sim(m, e) && Offered(m, e, op)
    ensures Sim(Emit(m, op), Exec(e, m.cpus, op, ready).0) <==> Harmless(m, op, ready)
  {
    if ready || !(op.TFork? || op.TFifo?) {
      StepSimulates(m, e, op);
    } else {
      assert SameTask(m, e, op.task);
      if op.task in m.tasks {
        LeavesAgree(m, e, m.tasks[op.task]);
        assert op.TFork? ==> !SameTask(Emit(m, op), e, op.child);
        assert op.TFifo? ==> !SameTask(Emit(m, op), e, op.task);
      } else {
        forall t
          ensures SameTask(Emit(m, op), e, t)
        {
          assert SameTask(m, e, t);
        }
      }
    }
  }

  /** A fork refused for a task in a cgroup: the generator may next move the child that never was. */
  lemma RefusedForkMisleads(m: Mirror, e: Tables, task: int, child: int)
    requires Good(m) && Shape(e) && Sim(m, e) && Offered(m, e, TFork(task, child)) && task in m.tasks
    ensures var op := CgMoveRoot(m.tasks[task], child);
      Offered(Emit(m, TFork(task, child)), e, op) && !Exec(e, m.cpus, op, true).1
  {}

  // ---- whole runs ----

  datatype Sent = Sent(op: Op, ready: bool)

  /** Every operation is offered when its turn comes, and none is refused where that does harm. */
  ghost predicate Plays(m: Mirror, e: Tables, run: seq<Sent>)
    requires Good(m) && Shape(e)
    decreases |run|
  {
    run == [] ||
    (var op := run[0].op;
     Offered(m, e, op) && Harmless(m, op, run[0].ready) &&
     (EmitIsGood(m, e, op); Plays(Emit(m, op), Exec(e, m.cpus, op, run[0].ready).0, run[1..])))
  }

  ghost function AfterRun(m: Mirror, e: Tables, run: seq<Sent>): (r: (Mirror, Tables))
    requires Good(m) && Shape(e) && Plays(m, e, run)
    ensures Good(r.0) && Shape(r.1) && r.0.cpus == m.cpus
    decreases |run|
  {
    if run == [] then (m, e)
    else
      var op := run[0].op;
      EmitIsGood(m, e, op);
      AfterRun(Emit(m, op), Exec(e, m.cpus, op, run[0].ready).0, run[1..])
  }

  /** After any run the mirror is the tables, and whatever cgroup operation comes next is accepted. */
  lemma {:induction false} RunSimulates(m: Mirror, e: Tables, run: seq<Sent>, next: Op)
    requires Good(m) && Shape(e) && Sim(m, e) && Plays(m, e, run)
    ensures var (m', e') := AfterRun(m, e, run);
      Sim(m', e') && (Offered(m', e', next) ==> Exec(e', m.cpus, next, true).1)
    decreases |run|
  {
    if run == [] {
      if Offered(m, e, next) {
        StepSimulates(m, e, next);
      }
    } else {
      var op := run[0].op;
      EmitIsGood(m, e, op);
      SimulatesExactlyWhenHarmless(m, e, op, run[0].ready);
      RunSimulates(Emit(m, op), Exec(e, m.cpus, op, run[0].ready).0, run[1..], next);
    }
  }

  /** Both sides start empty, whatever the executor's tables hold where nothing exists. */
  lemma StartSimulates(cpus: nat, e: Tables)
    requires Shape(e) && forall id :: !Exists(e, id) && !Live(e, id)
    ensures var m := Mirror(cpus, [], map[], [], map[]); Good(m) && Sim(m, e)
  {
    var m := Mirror(cpus, [], map[], [], map[]);
    assert forall x :: x !in Parents(m.cgroups);
  }
}
