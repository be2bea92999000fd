/** The shared region (kmod/shm.h): the tables the module writes after every command, as kmod/shm.c fills
    them, and the host's decoder (crates/core/src/shm.rs). What a record says beyond what the tables need
    to hang together is its body. */
module Shm {
  import opened Ring

  const CPUS := 32
  const TASKS := 64
  const CGROUPS := 16
  const ENTITIES := 576    // TASKS + CGROUPS * CPUS
  const DOMAINS := 160     // CPUS * 5
  const GROUPS := 1024
  const PATH := 40

  // ---- the machine, as the module finds it ----

  datatype Class = Fair | RealTime | Neither

  datatype Task = Task(id: int, live: bool, policy: Class, path: string, cpu: nat, body: int, member: int)

  /** One cgroup of the tree walk: group has its entity on each test CPU, where it has one. */
  datatype Cgroup = Cgroup(online: bool, path: string, group: seq<Option<int>>, body: int)

  datatype Domain = Domain(body: int, groups: seq<int>)

  datatype Cpu = Cpu(running: int, body: int)

  /** cpus[c - 1] and domains[c - 1] are test CPU c's. */
  datatype Machine = Machine(cpus: seq<Cpu>, walk: seq<Cgroup>, tasks: seq<Task>, domains: seq<seq<Domain>>, now: nat)

  // ---- the region ----

  datatype CpuRec = CpuRec(cpu: nat, curr: nat, body: int)
  datatype TaskRec = TaskRec(task: nat, cgroup: nat, body: int)
  datatype CgroupRec = CgroupRec(path: string, body: int)
  datatype EntityRec = EntityRec(task: nat, cgroup: nat, cpu: nat, body: int)
  datatype RtRec = RtRec(task: nat, body: int)
  datatype DomainRec = DomainRec(cpu: nat, body: int, group: nat, ngroups: nat)

  /** The header's counts, and the tables they count records of. */
  datatype Region = Region(
    timestamp: nat, ncpus: nat, ntasks: nat, ncgroups: nat, ndomains: nat, ngroups: nat, nentities: nat, nrt: nat,
    cpu: seq<CpuRec>, task: seq<TaskRec>, cgroup: seq<CgroupRec>, entity: seq<EntityRec>, rt: seq<RtRec>,
    domain: seq<DomainRec>, group: seq<int>)

  // ---- the decoder ----

  datatype Error = Count

  datatype Result<T> = Ok(value: T) | Err(error: Error)

  function Table<T>(rows: seq<T>, n: nat): Result<seq<T>> { if n <= |rows| then Ok(rows[..n]) else Err(Count) }

  datatype TaskState = TaskState(task: nat, cgroup: string, body: int)
  datatype EntityState = EntityState(task: nat, cgroup: string, cpu: nat, body: int)
  datatype DomainState = DomainState(cpu: nat, body: int, groups: seq<int>)

  datatype State = State(
    timestamp: nat, cpus: seq<CpuRec>, tasks: seq<TaskState>, cgroups: seq<CgroupRec>,
    entities: seq<EntityState>, rts: seq<RtRec>, domains: seq<DomainState>)

  function PathOf(cgroups: seq<CgroupRec>, i: nat): string { if i < |cgroups| then cgroups[i].path else "/" }

  function Run(groups: seq<int>, d: DomainRec): seq<int> {
    if d.group + d.ngroups <= |groups| then groups[d.group..d.group + d.ngroups] else []
  }

  function Decode(r: Region): Result<State> {
    var cpus, cgroups, tasks := Table(r.cpu, r.ncpus), Table(r.cgroup, r.ncgroups), Table(r.task, r.ntasks);
    var entities, rts := Table(r.entity, r.nentities), Table(r.rt, r.nrt);
    var groups, domains := Table(r.group, r.ngroups), Table(r.domain, r.ndomains);
    if cpus.Err? || cgroups.Err? || tasks.Err? || entities.Err? || rts.Err? || groups.Err? || domains.Err? then Err(Count)
    else
      Ok(State(r.timestamp, cpus.value, TaskStates(tasks.value, cgroups.value), cgroups.value,
        EntityStates(entities.value, cgroups.value), rts.value, DomainStates(domains.value, groups.value)))
  }

  function TaskStates(ts: seq<TaskRec>, cgroups: seq<CgroupRec>): seq<TaskState> {
    seq(|ts|, i requires 0 <= i < |ts| => TaskState(ts[i].task, PathOf(cgroups, ts[i].cgroup), ts[i].body))
  }

  function EntityStates(es: seq<EntityRec>, cgroups: seq<CgroupRec>): seq<EntityState> {
    seq(|es|, i requires 0 <= i < |es| => EntityState(es[i].task, PathOf(cgroups, es[i].cgroup), es[i].cpu, es[i].body))
  }

  function DomainStates(ds: seq<DomainRec>, groups: seq<int>): seq<DomainState> {
    seq(|ds|, i requires 0 <= i < |ds| => DomainState(ds[i].cpu, ds[i].body, Run(groups, ds[i])))
  }

  // ---- what the writer writes, its capacities included ----

  /** The number of the task that a CPU runs, 0 for none of the session's. */
  function Current(tasks: seq<Task>, running: int): nat {
    if tasks == [] then 0
    else if tasks[|tasks| - 1].id == running then |tasks|
    else Current(tasks[..|tasks| - 1], running)
  }

  function CpuRecs(m: Machine): seq<CpuRec> {
    seq(|m.cpus|, i requires 0 <= i < |m.cpus| => CpuRec(i + 1, Current(m.tasks, m.cpus[i].running), m.cpus[i].body))
  }

  predicate Kept(c: Cgroup) { c.online && |c.path| < PATH }

  /** A cgroup's entities on the first test CPUs, as many as group has, after those before. */
  function GroupEntities(row: nat, group: seq<Option<int>>, before: seq<EntityRec>): seq<EntityRec> {
    if group == [] then before
    else
      var es := GroupEntities(row, group[..|group| - 1], before);
      var last := group[|group| - 1];
      if last.None? || |es| == ENTITIES then es else es + [EntityRec(0, row, |group|, last.value)]
  }

  function Walked(walk: seq<Cgroup>): (seq<CgroupRec>, seq<EntityRec>) {
    if walk == [] then ([], [])
    else
      var (rows, es) := Walked(walk[..|walk| - 1]);
      var c := walk[|walk| - 1];
      if |rows| == CGROUPS || !Kept(c) then (rows, es)
      else (rows + [CgroupRec(c.path, c.body)], GroupEntities(|rows|, c.group, es))
  }

  function FirstRow(rows: seq<CgroupRec>, path: string): Option<nat> {
    if rows == [] then None
    else
      var r := FirstRow(rows[..|rows| - 1], path);
      if r.Some? then r else if rows[|rows| - 1].path == path then Some(|rows| - 1) else None
  }

  /** The row of a task's cgroup; the root's where the walk did not keep it. */
  function RowOf(rows: seq<CgroupRec>, path: string): nat {
    var r := FirstRow(rows, path);
    if r.Some? then r.value else 0
  }

  datatype Members = Members(tasks: seq<TaskRec>, entities: seq<EntityRec>, rts: seq<RtRec>)

  function WithTask(rows: seq<CgroupRec>, t: Task, number: nat, ms: Members): Members {
    if |ms.tasks| >= TASKS || !t.live then ms
    else
      var row := RowOf(rows, t.path);
      Members(ms.tasks + [TaskRec(number, row, t.body)],
        if t.policy.Fair? && |ms.entities| < ENTITIES then ms.entities + [EntityRec(number, row, t.cpu, t.member)] else ms.entities,
        if t.policy.RealTime? then ms.rts + [RtRec(number, t.member)] else ms.rts)
  }

  function MembersOf(rows: seq<CgroupRec>, tasks: seq<Task>, before: seq<EntityRec>): Members {
    if tasks == [] then Members([], before, [])
    else WithTask(rows, tasks[|tasks| - 1], |tasks|, MembersOf(rows, tasks[..|tasks| - 1], before))
  }

  /** As many of a domain's groups as still fit. */
  function Fitting(groups: seq<int>, have: nat): seq<int> {
    if have + |groups| <= GROUPS then groups else if have <= GROUPS then groups[..GROUPS - have] else []
  }

  function WithDomain(cpu: nat, d: Domain, r: (seq<DomainRec>, seq<int>)): (seq<DomainRec>, seq<int>) {
    if |r.0| >= DOMAINS then r
    else
      var fit := Fitting(d.groups, |r.1|);
      (r.0 + [DomainRec(cpu, d.body, |r.1|, |fit|)], r.1 + fit)
  }

  function CpuDomains(cpu: nat, ds: seq<Domain>, r: (seq<DomainRec>, seq<int>)): (seq<DomainRec>, seq<int>) {
    if ds == [] then r else WithDomain(cpu, ds[|ds| - 1], CpuDomains(cpu, ds[..|ds| - 1], r))
  }

  function AllDomains(domains: seq<seq<Domain>>): (seq<DomainRec>, seq<int>) {
    if domains == [] then ([], []) else CpuDomains(|domains|, domains[|domains| - 1], AllDomains(domains[..|domains| - 1]))
  }

  // ---- the capacities ----

  lemma {:induction false} GroupEntitiesFit(row: nat, group: seq<Option<int>>, before: seq<EntityRec>)
    requires |before| <= ENTITIES
    ensures |GroupEntities(row, group, before)| <= ENTITIES
    decreases |group|
  {
    if group != [] {
      GroupEntitiesFit(row, group[..|group| - 1], before);
    }
  }

  lemma {:induction false} WalkedFits(walk: seq<Cgroup>)
    ensures |Walked(walk).0| <= CGROUPS && |Walked(walk).1| <= ENTITIES
    decreases |walk|
  {
    if walk != [] {
      WalkedFits(walk[..|walk| - 1]);
      var (rows, es) := Walked(walk[..|walk| - 1]);
      GroupEntitiesFit(|rows|, walk[|walk| - 1].group, es);
    }
  }

  lemma {:induction false} MembersFit(rows: seq<CgroupRec>, tasks: seq<Task>, before: seq<EntityRec>)
    requires |before| <= ENTITIES
    ensures var ms := MembersOf(rows, tasks, before);
      |ms.tasks| <= TASKS && |ms.entities| <= ENTITIES && |ms.rts| <= |ms.tasks|
    decreases |tasks|
  {
    if tasks != [] {
      MembersFit(rows, tasks[..|tasks| - 1], before);
    }
  }

  lemma {:induction false} CpuDomainsFit(cpu: nat, ds: seq<Domain>, r: (seq<DomainRec>, seq<int>))
    requires |r.0| <= DOMAINS && |r.1| <= GROUPS
    ensures var r' := CpuDomains(cpu, ds, r); |r'.0| <= DOMAINS && |r'.1| <= GROUPS
    decreases |ds|
  {
    if ds != [] {
      CpuDomainsFit(cpu, ds[..|ds| - 1], r);
    }
  }

  lemma {:induction false} AllDomainsFit(domains: seq<seq<Domain>>)
    ensures |AllDomains(domains).0| <= DOMAINS && |AllDomains(domains).1| <= GROUPS
    decreases |domains|
  {
    if domains != [] {
      AllDomainsFit(domains[..|domains| - 1]);
      CpuDomainsFit(|domains|, domains[|domains| - 1], AllDomains(domains[..|domains| - 1]));
    }
  }
}
