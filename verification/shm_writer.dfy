/** kstep_shm_update as it is written (kmod/shm.c): fixed tables filled through running counters. */
module ShmWriter {
  import opened Ring
  import opened Shm
  import opened ShmState

  class ShmWriter {
    var timestamp: nat
    var ncpus: nat
    var ntasks: nat
    var ncgroups: nat
    var ndomains: nat
    var ngroups: nat
    var nentities: nat
    var nrt: nat
    const cpu: array<CpuRec>
    const task: array<TaskRec>
    const cgroup: array<CgroupRec>
    const entity: array<EntityRec>
    const rt: array<RtRec>
    const domain: array<DomainRec>
    const group: array<int>

    ghost predicate Valid()
      reads this
    {
      && cpu.Length == CPUS && task.Length == TASKS && cgroup.Length == CGROUPS && entity.Length == ENTITIES
      && rt.Length == TASKS && domain.Length == DOMAINS && group.Length == GROUPS
    }

    ghost function View(): Region
      reads this, cpu, task, cgroup, entity, rt, domain, group
    {
      Region(timestamp, ncpus, ntasks, ncgroups, ndomains, ngroups, nentities, nrt,
        cpu[..], task[..], cgroup[..], entity[..], rt[..], domain[..], group[..])
    }

    constructor ()
      ensures Valid() && fresh(cpu) && fresh(task) && fresh(cgroup) && fresh(entity) && fresh(rt) && fresh(domain) && fresh(group)
    {
      timestamp, ncpus, ntasks, ncgroups, ndomains, ngroups, nentities, nrt := 0, 0, 0, 0, 0, 0, 0, 0;
      cpu := new CpuRec[CPUS](_ => CpuRec(0, 0, 0));
      task := new TaskRec[TASKS](_ => TaskRec(0, 0, 0));
      cgroup := new CgroupRec[CGROUPS](_ => CgroupRec("", 0));
      entity := new EntityRec[ENTITIES](_ => EntityRec(0, 0, 0, 0));
      rt := new RtRec[TASKS](_ => RtRec(0, 0));
      domain := new DomainRec[DOMAINS](_ => DomainRec(0, 0, 0, 0));
      group := new int[GROUPS](_ => 0);
    }

    method WriteCpus(m: Machine)
      requires Valid() && |m.cpus| < CPUS
      modifies cpu, this`ncpus
      ensures Holds(cpu[..], ncpus, CpuRecs(m))
    {
      for c := 0 to |m.cpus|
        invariant cpu[..c] == CpuRecs(m)[..c]
      {
        var curr := FindTask(m.tasks, m.cpus[c].running);
        cpu[c] := CpuRec(c + 1, curr, m.cpus[c].body);
        assert cpu[..c + 1] == cpu[..c] + [cpu[c]];
      }
      ncpus := |m.cpus|;
    }

    static method FindTask(tasks: seq<Task>, running: int) returns (curr: nat)
      ensures curr == Current(tasks, running)
    {
      curr := 0;
      for i := 0 to |tasks|
        invariant curr == Current(tasks[..i], running)
      {
        assert tasks[..i + 1][..i] == tasks[..i];
        if tasks[i].id == running {
          curr := i + 1;
        }
      }
      assert tasks[..|tasks|] == tasks;
    }

    /** shm_group_entities. */
    method WriteGroupEntities(row: nat, entities: seq<Option<int>>)
      requires Valid() && nentities <= ENTITIES
      modifies entity, this`nentities
      ensures nentities <= ENTITIES && entity[..nentities] == GroupEntities(row, entities, old(entity[..nentities]))
    {
      ghost var before := entity[..nentities];
      for c := 0 to |entities|
        invariant nentities <= ENTITIES && entity[..nentities] == GroupEntities(row, entities[..c], before)
      {
        assert entities[..c + 1][..c] == entities[..c];
        if entities[c].None? || nentities == ENTITIES {
          continue;
        }
        entity[nentities] := EntityRec(0, row, c + 1, entities[c].value);
        nentities := nentities + 1;
      }
      assert entities[..|entities|] == entities;
    }

    /** shm_collect_cgroups. */
    method WriteCgroups(m: Machine)
      requires Valid()
      modifies cgroup, entity, this`ncgroups, this`nentities
      ensures Holds(cgroup[..], ncgroups, Rows(m)) && nentities <= ENTITIES && entity[..nentities] == Walked(m.walk).1
    {
      ncgroups, nentities := 0, 0;
      var i := 0;
      while i < |m.walk| && ncgroups < CGROUPS
        invariant 0 <= i <= |m.walk| && ncgroups <= CGROUPS && nentities <= ENTITIES
        invariant cgroup[..ncgroups] == Walked(m.walk[..i]).0 && entity[..nentities] == Walked(m.walk[..i]).1
      {
        assert m.walk[..i + 1][..i] == m.walk[..i];
        var c := m.walk[i];
        if Kept(c) {
          cgroup[ncgroups] := CgroupRec(c.path, c.body);
          WriteGroupEntities(ncgroups, c.group);
          ncgroups := ncgroups + 1;
        }
        i := i + 1;
      }
      FullWalkStops(m.walk, i);
    }

    /** The session's tasks, each with the one record of its class. */
    method WriteTasks(m: Machine)
      requires Valid() && ncgroups <= CGROUPS && cgroup[..ncgroups] == Rows(m)
      requires nentities <= ENTITIES && entity[..nentities] == Walked(m.walk).1
      modifies task, entity, rt, this`ntasks, this`nentities, this`nrt
      ensures Holds(task[..], ntasks, AllMembers(m).tasks)
      ensures Holds(entity[..], nentities, AllMembers(m).entities)
      ensures Holds(rt[..], nrt, AllMembers(m).rts)
    {
      ntasks, nrt := 0, 0;
      ghost var before := entity[..nentities];
      var i := 0;
      while i < |m.tasks| && ntasks < TASKS
        invariant 0 <= i <= |m.tasks| && nrt <= ntasks <= TASKS && nentities <= ENTITIES
        invariant Members(task[..ntasks], entity[..nentities], rt[..nrt]) == MembersOf(Rows(m), m.tasks[..i], before)
      {
        assert m.tasks[..i + 1][..i] == m.tasks[..i];
        var t := m.tasks[i];
        if t.live {
          WriteTask(t, i + 1, Rows(m), MembersOf(Rows(m), m.tasks[..i], before));
        }
        i := i + 1;
      }
      FullTasksStop(Rows(m), m.tasks, before, i);
    }

    method WriteTask(t: Task, number: nat, ghost rows: seq<CgroupRec>, ghost ms: Members)
      requires Valid() && t.live && nrt <= ntasks < TASKS && nentities <= ENTITIES
      requires ncgroups <= CGROUPS && rows == cgroup[..ncgroups]
      requires Members(task[..ntasks], entity[..nentities], rt[..nrt]) == ms
      modifies task, entity, rt, this`ntasks, this`nentities, this`nrt
      ensures nrt <= ntasks <= TASKS && nentities <= ENTITIES
      ensures Members(task[..ntasks], entity[..nentities], rt[..nrt]) == WithTask(rows, t, number, ms)
    {
      var row := FindRow(t.path);
      task[ntasks] := TaskRec(number, row, t.body);
      ntasks := ntasks + 1;
      if t.policy.RealTime? {
        rt[nrt] := RtRec(number, t.member);
        nrt := nrt + 1;
      } else if t.policy.Fair? && nentities < ENTITIES {
        entity[nentities] := EntityRec(number, row, t.cpu, t.member);
        nentities := nentities + 1;
      }
    }

    method FindRow(path: string) returns (row: nat)
      requires Valid() && ncgroups <= CGROUPS
      ensures row == RowOf(cgroup[..ncgroups], path)
    {
      for g := 0 to ncgroups
        invariant FirstRow(cgroup[..g], path).None?
      {
        assert cgroup[..g + 1][..g] == cgroup[..g];
        if cgroup[g].path == path {
          FirstRowStays(cgroup[..ncgroups], path, g + 1);
          assert cgroup[..ncgroups][..g + 1] == cgroup[..g + 1];
          return g;
        }
      }
      row := 0;
    }

    /** shm_collect_domains. */
    method WriteDomains(m: Machine)
      requires Valid() && |m.domains| == |m.cpus|
      modifies domain, group, this`ndomains, this`ngroups
      ensures Holds(domain[..], ndomains, AllDomains(m.domains).0)
      ensures Holds(group[..], ngroups, AllDomains(m.domains).1)
    {
      ndomains, ngroups := 0, 0;
      for c := 0 to |m.domains|
        invariant ndomains <= DOMAINS && ngroups <= GROUPS
        invariant (domain[..ndomains], group[..ngroups]) == AllDomains(m.domains[..c])
      {
        assert m.domains[..c + 1][..c] == m.domains[..c];
        ghost var before := (domain[..ndomains], group[..ngroups]);
        for d := 0 to |m.domains[c]|
          invariant ndomains <= DOMAINS && ngroups <= GROUPS
          invariant (domain[..ndomains], group[..ngroups]) == CpuDomains(c + 1, m.domains[c][..d], before)
        {
          assert m.domains[c][..d + 1][..d] == m.domains[c][..d];
          if ndomains == DOMAINS {
            continue;
          }
          WriteDomain(c + 1, m.domains[c][d]);
        }
        assert m.domains[c][..|m.domains[c]|] == m.domains[c];
      }
      assert m.domains[..|m.domains|] == m.domains;
    }

    method WriteDomain(c: nat, d: Domain)
      requires Valid() && ndomains < DOMAINS && ngroups <= GROUPS
      modifies domain, group, this`ndomains, this`ngroups
      ensures ndomains <= DOMAINS && ngroups <= GROUPS
      ensures (domain[..ndomains], group[..ngroups]) == WithDomain(c, d, old((domain[..ndomains], group[..ngroups])))
    {
      var start := ngroups;
      ghost var before := group[..ngroups];
      var g := 0;
      while g < |d.groups| && ngroups < GROUPS
        invariant 0 <= g <= |d.groups| && ngroups == start + g <= GROUPS
        invariant ndomains == old(ndomains) && domain[..] == old(domain[..])
        invariant group[..ngroups] == before + d.groups[..g]
      {
        group[ngroups] := d.groups[g];
        ngroups := ngroups + 1;
        g := g + 1;
      }
      assert d.groups[..g] == Fitting(d.groups, start);
      ghost var domains := domain[..ndomains];
      domain[ndomains] := DomainRec(c, d.body, start, g);
      ndomains := ndomains + 1;
      assert domain[..ndomains] == domains + [DomainRec(c, d.body, start, g)];
    }

    method Update(m: Machine)
      requires Valid() && |m.cpus| < CPUS && |m.domains| == |m.cpus|
      modifies this, cpu, task, cgroup, entity, rt, domain, group
      ensures Valid() && Written(View(), m)
    {
      WriteCgroups(m);
      WriteCpus(m);
      assert cgroup[..ncgroups] == Rows(m);
      WriteTasks(m);
      label Tasked:
      WriteDomains(m);
      assert cpu[..] == old@Tasked(cpu[..]) && task[..] == old@Tasked(task[..]) && cgroup[..] == old@Tasked(cgroup[..]);
      assert entity[..] == old@Tasked(entity[..]) && rt[..] == old@Tasked(rt[..]);
      timestamp := m.now;
    }
  }

  lemma {:induction false} FullWalkStops(walk: seq<Cgroup>, i: nat)
    requires i <= |walk| && (i == |walk| || |Walked(walk[..i]).0| == CGROUPS)
    ensures Walked(walk) == Walked(walk[..i])
    decreases |walk|
  {
    if i < |walk| {
      assert walk[..|walk| - 1][..i] == walk[..i];
      FullWalkStops(walk[..|walk| - 1], i);
    } else {
      assert walk[..i] == walk;
    }
  }

  lemma {:induction false} FullTasksStop(rows: seq<CgroupRec>, tasks: seq<Task>, before: seq<EntityRec>, i: nat)
    requires i <= |tasks| && (i == |tasks| || |MembersOf(rows, tasks[..i], before).tasks| >= TASKS)
    ensures MembersOf(rows, tasks, before) == MembersOf(rows, tasks[..i], before)
    decreases |tasks|
  {
    if i < |tasks| {
      assert tasks[..|tasks| - 1][..i] == tasks[..i];
      FullTasksStop(rows, tasks[..|tasks| - 1], before, i);
    } else {
      assert tasks[..i] == tasks;
    }
  }

  lemma {:induction false} FirstRowStays(rows: seq<CgroupRec>, path: string, n: nat)
    requires n <= |rows| && FirstRow(rows[..n], path).Some?
    ensures FirstRow(rows, path) == FirstRow(rows[..n], path)
    decreases |rows|
  {
    if n < |rows| {
      assert rows[..|rows| - 1][..n] == rows[..n];
      FirstRowStays(rows[..|rows| - 1], path, n);
    } else {
      assert rows[..n] == rows;
    }
  }
}
