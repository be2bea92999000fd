/** What the host decodes from the region is the machine: nothing lost to a table's capacity, each task in
    its class's table once, and each domain's groups its own. */
module ShmState {
  import opened Ring
  import opened Shm

  // ---- what the tables hold, and reading it back ----

  predicate Holds<T(==)>(table: seq<T>, n: nat, rows: seq<T>) { n == |rows| <= |table| && table[..n] == rows }

  function Rows(m: Machine): seq<CgroupRec> { Walked(m.walk).0 }

  function AllMembers(m: Machine): Members { MembersOf(Rows(m), m.tasks, Walked(m.walk).1) }

  predicate Written(r: Region, m: Machine) {
    && r.timestamp == m.now
    && Holds(r.cpu, r.ncpus, CpuRecs(m))
    && Holds(r.cgroup, r.ncgroups, Rows(m))
    && Holds(r.task, r.ntasks, AllMembers(m).tasks)
    && Holds(r.entity, r.nentities, AllMembers(m).entities)
    && Holds(r.rt, r.nrt, AllMembers(m).rts)
    && Holds(r.domain, r.ndomains, AllDomains(m.domains).0)
    && Holds(r.group, r.ngroups, AllDomains(m.domains).1)
  }

  function StateOf(m: Machine): State {
    var rows, ms, (ds, gs) := Rows(m), AllMembers(m), AllDomains(m.domains);
    State(m.now, CpuRecs(m), TaskStates(ms.tasks, rows), rows, EntityStates(ms.entities, rows), ms.rts, DomainStates(ds, gs))
  }

  /** Whatever else the tables hold, the decoder reads what the writer counted. */
  lemma DecodeReadsBack(r: Region, m: Machine)
    requires Written(r, m)
    ensures Decode(r) == Ok(StateOf(m))
  {}

  // ---- the machine without capacities ----

  datatype Which = Live | LiveFair | LiveRt

  predicate Picks(which: Which, t: Task) {
    t.live && match which case Live => true case LiveFair => t.policy.Fair? case LiveRt => t.policy.RealTime?
  }

  /** The numbers of the tasks picked, in order. */
  function Numbers(tasks: seq<Task>, which: Which): seq<nat> {
    if tasks == [] then []
    else Numbers(tasks[..|tasks| - 1], which) + (if Picks(which, tasks[|tasks| - 1]) then [|tasks|] else [])
  }

  predicate Increasing(ns: seq<nat>) { forall i, j :: 0 <= i < j < |ns| ==> ns[i] < ns[j] }

  predicate Picked(tasks: seq<Task>, which: Which, n: int) { 1 <= n <= |tasks| && Picks(which, tasks[n - 1]) }

  /** Strictly increasing, so each once; */
  lemma {:induction false} NumbersAreDistinct(tasks: seq<Task>, which: Which)
    ensures Increasing(Numbers(tasks, which))
    ensures forall i :: 0 <= i < |Numbers(tasks, which)| ==> Picked(tasks, which, Numbers(tasks, which)[i])
    decreases |tasks|
  {
    if tasks != [] {
      var init, ns := tasks[..|tasks| - 1], Numbers(tasks, which);
      var before := Numbers(init, which);
      NumbersAreDistinct(init, which);
      forall i | 0 <= i < |ns|
        ensures Picked(tasks, which, ns[i]) && (i < |before| ==> ns[i] < |tasks|)
      {
        if i < |before| {
          assert Picked(init, which, before[i]);
        }
      }
    }
  }

  /** and all of those picked. */
  lemma {:induction false} NumbersAreAll(tasks: seq<Task>, which: Which, t: nat)
    requires t < |tasks| && Picks(which, tasks[t])
    ensures Has(Numbers(tasks, which), t + 1)
    decreases |tasks|
  {
    var init, ns := tasks[..|tasks| - 1], Numbers(tasks, which);
    if t < |init| {
      NumbersAreAll(init, which, t);
      var i :| 0 <= i < |Numbers(init, which)| && Numbers(init, which)[i] == t + 1;
      assert ns[i] == t + 1;
    } else {
      assert ns[|Numbers(init, which)|] == t + 1;
    }
  }

  lemma {:induction false} NumbersAreFew(tasks: seq<Task>, which: Which)
    ensures |Numbers(tasks, which)| <= |tasks|
    decreases |tasks|
  {
    if tasks != [] {
      NumbersAreFew(tasks[..|tasks| - 1], which);
    }
  }

  predicate Has(ns: seq<nat>, n: int) { exists i :: 0 <= i < |ns| && ns[i] == n }

  function KeptOf(walk: seq<Cgroup>): seq<Cgroup> {
    if walk == [] then []
    else KeptOf(walk[..|walk| - 1]) + (if Kept(walk[|walk| - 1]) then [walk[|walk| - 1]] else [])
  }

  function RowsOf(kept: seq<Cgroup>): seq<CgroupRec> {
    seq(|kept|, i requires 0 <= i < |kept| => CgroupRec(kept[i].path, kept[i].body))
  }

  /** One cgroup's entities, a record for each test CPU where it has one. */
  function Placed(row: nat, group: seq<Option<int>>): seq<EntityRec> {
    if group == [] then []
    else
      var last := group[|group| - 1];
      Placed(row, group[..|group| - 1]) + (if last.Some? then [EntityRec(0, row, |group|, last.value)] else [])
  }

  function AllPlaced(kept: seq<Cgroup>): seq<EntityRec> {
    if kept == [] then [] else AllPlaced(kept[..|kept| - 1]) + Placed(|kept| - 1, kept[|kept| - 1].group)
  }

  function GroupsOf(ds: seq<Domain>): seq<int> {
    if ds == [] then [] else GroupsOf(ds[..|ds| - 1]) + ds[|ds| - 1].groups
  }

  function AllGroups(domains: seq<seq<Domain>>): seq<int> {
    if domains == [] then [] else AllGroups(domains[..|domains| - 1]) + GroupsOf(domains[|domains| - 1])
  }

  function CpuStates(cpu: nat, ds: seq<Domain>): seq<DomainState> {
    seq(|ds|, i requires 0 <= i < |ds| => DomainState(cpu, ds[i].body, ds[i].groups))
  }

  function AllStates(domains: seq<seq<Domain>>): seq<DomainState> {
    if domains == [] then [] else AllStates(domains[..|domains| - 1]) + CpuStates(|domains|, domains[|domains| - 1])
  }

  /** The module's limits: the cli's own on tasks, the kernel's on levels, the root first and without
      entities of its own. */
  predicate Within(m: Machine) {
    && |m.cpus| < CPUS && |m.domains| == |m.cpus| && |m.tasks| <= TASKS
    && 1 <= |KeptOf(m.walk)| <= CGROUPS && KeptOf(m.walk)[0].group == []
    && (forall i :: 0 <= i < |KeptOf(m.walk)| ==> |KeptOf(m.walk)[i].group| <= |m.cpus|)
    && (forall c :: 0 <= c < |m.domains| ==> |m.domains[c]| <= 5)
    && |AllGroups(m.domains)| <= GROUPS
  }

  // ---- the cgroup walk ----

  lemma {:induction false} PlacedFits(row: nat, group: seq<Option<int>>, before: seq<EntityRec>)
    requires |before| + |group| <= ENTITIES
    ensures GroupEntities(row, group, before) == before + Placed(row, group)
    ensures |Placed(row, group)| <= |group|
    decreases |group|
  {
    if group != [] {
      var n := |group| - 1;
      PlacedFits(row, group[..n], before);
      var one := if group[n].Some? then [EntityRec(0, row, |group|, group[n].value)] else [];
      assert (before + Placed(row, group[..n])) + one == before + (Placed(row, group[..n]) + one);
    } else {
      assert before + [] == before;
    }
  }

  predicate Narrow(kept: seq<Cgroup>, cpus: nat) {
    && (forall i :: 0 <= i < |kept| ==> |kept[i].group| <= cpus)
    && (kept != [] ==> kept[0].group == [])
  }

  lemma KeepOneMore(kept: seq<Cgroup>, last: Cgroup, before: seq<EntityRec>, cpus: nat)
    requires |kept| < CGROUPS && cpus < CPUS && Narrow(kept + [last], cpus)
    requires before == AllPlaced(kept) && |before| <= if kept == [] then 0 else (|kept| - 1) * cpus
    ensures RowsOf(kept + [last]) == RowsOf(kept) + [CgroupRec(last.path, last.body)]
    ensures GroupEntities(|kept|, last.group, before) == AllPlaced(kept + [last])
    ensures |AllPlaced(kept + [last])| <= |kept| * cpus
  {
    assert (kept + [last])[|kept|] == last && (kept + [last])[..|kept|] == kept;
    if kept == [] {
      assert last.group == [];
    } else {
      OneMoreRow(|kept|, cpus);
    }
    PlacedFits(|kept|, last.group, before);
  }

  lemma {:induction false} WalkKeepsAll(walk: seq<Cgroup>, cpus: nat)
    requires |KeptOf(walk)| <= CGROUPS && cpus < CPUS && Narrow(KeptOf(walk), cpus)
    ensures Walked(walk).0 == RowsOf(KeptOf(walk)) && Walked(walk).1 == AllPlaced(KeptOf(walk))
    ensures |Walked(walk).1| <= if KeptOf(walk) == [] then 0 else (|KeptOf(walk)| - 1) * cpus
    decreases |walk|
  {
    if walk != [] {
      var init, last := walk[..|walk| - 1], walk[|walk| - 1];
      var kept := KeptOf(init);
      assert forall i :: 0 <= i < |kept| ==> kept[i] == KeptOf(walk)[i];
      WalkKeepsAll(init, cpus);
      if Kept(last) {
        KeepOneMore(kept, last, Walked(init).1, cpus);
      } else {
        assert KeptOf(walk) == kept;
      }
    }
  }

  lemma OneMoreRow(rows: nat, cpus: nat)
    requires 1 <= rows < CGROUPS && cpus < CPUS
    ensures (rows - 1) * cpus + cpus == rows * cpus <= ENTITIES - TASKS
  {
    MulMonotone(rows, CGROUPS - 1, cpus);
  }

  lemma MulMonotone(a: nat, b: nat, c: nat)
    requires a <= b
    ensures a * c <= b * c
  {
    assert b * c == a * c + (b - a) * c;
  }

  // ---- the tasks ----

  function TaskRows(ts: seq<TaskRec>): seq<nat> { seq(|ts|, i requires 0 <= i < |ts| => ts[i].task) }

  function RtRows(ts: seq<RtRec>): seq<nat> { seq(|ts|, i requires 0 <= i < |ts| => ts[i].task) }

  function EntityRows(es: seq<EntityRec>): seq<nat> { seq(|es|, i requires 0 <= i < |es| => es[i].task) }

  lemma {:induction false} MembersAreAll(rows: seq<CgroupRec>, tasks: seq<Task>, before: seq<EntityRec>)
    requires |tasks| <= TASKS && |before| + |tasks| <= ENTITIES
    ensures var ms := MembersOf(rows, tasks, before);
      && TaskRows(ms.tasks) == Numbers(tasks, Live)
      && RtRows(ms.rts) == Numbers(tasks, LiveRt)
      && before <= ms.entities && EntityRows(ms.entities[|before|..]) == Numbers(tasks, LiveFair)
    decreases |tasks|
  {
    if tasks != [] {
      MembersAreAll(rows, tasks[..|tasks| - 1], before);
      NumbersAreFew(tasks[..|tasks| - 1], Live);
      NumbersAreFew(tasks[..|tasks| - 1], LiveFair);
    }
  }

  // ---- the domains ----

  lemma {:induction false} CpuDomainsAreAll(cpu: nat, ds: seq<Domain>, r: (seq<DomainRec>, seq<int>))
    requires |r.0| + |ds| <= DOMAINS && |r.1 + GroupsOf(ds)| <= GROUPS
    requires forall i :: 0 <= i < |r.0| ==> r.0[i].group + r.0[i].ngroups <= |r.1|
    ensures var r' := CpuDomains(cpu, ds, r);
      && |r'.0| == |r.0| + |ds| && r'.1 == r.1 + GroupsOf(ds)
      && (forall i :: 0 <= i < |r'.0| ==> r'.0[i].group + r'.0[i].ngroups <= |r'.1|)
      && DomainStates(r'.0, r'.1) == DomainStates(r.0, r.1) + CpuStates(cpu, ds)
    decreases |ds|
  {
    if ds == [] {
      assert r.1 + [] == r.1;
      assert DomainStates(r.0, r.1) + CpuStates(cpu, ds) == DomainStates(r.0, r.1);
    } else {
      var init, last := ds[..|ds| - 1], ds[|ds| - 1];
      var before := CpuDomains(cpu, init, r);
      assert r.1 + GroupsOf(ds) == r.1 + GroupsOf(init) + last.groups;
      CpuDomainsAreAll(cpu, init, r);
      OneMoreDomain(cpu, last, before);
      assert CpuStates(cpu, ds) == CpuStates(cpu, init) + [DomainState(cpu, last.body, last.groups)];
      assert DomainStates(r.0, r.1) + CpuStates(cpu, ds)
        == DomainStates(r.0, r.1) + CpuStates(cpu, init) + [DomainState(cpu, last.body, last.groups)];
    }
  }

  lemma OneMoreDomain(cpu: nat, d: Domain, r: (seq<DomainRec>, seq<int>))
    requires |r.0| < DOMAINS && |r.1| + |d.groups| <= GROUPS
    requires forall i :: 0 <= i < |r.0| ==> r.0[i].group + r.0[i].ngroups <= |r.1|
    ensures var r' := WithDomain(cpu, d, r);
      && |r'.0| == |r.0| + 1 && r'.1 == r.1 + d.groups
      && (forall i :: 0 <= i < |r'.0| ==> r'.0[i].group + r'.0[i].ngroups <= |r'.1|)
      && DomainStates(r'.0, r'.1) == DomainStates(r.0, r.1) + [DomainState(cpu, d.body, d.groups)]
  {
    var r' := WithDomain(cpu, d, r);
    forall i | 0 <= i < |r.0|
      ensures Run(r'.1, r'.0[i]) == Run(r.1, r.0[i])
    {}
    assert Run(r'.1, r'.0[|r.0|]) == d.groups;
  }

  lemma {:induction false} DomainsAreAll(domains: seq<seq<Domain>>)
    requires |domains| < CPUS && (forall c :: 0 <= c < |domains| ==> |domains[c]| <= 5)
    requires |AllGroups(domains)| <= GROUPS
    ensures var (ds, gs) := AllDomains(domains);
      && |ds| <= 5 * |domains| && gs == AllGroups(domains)
      && (forall i :: 0 <= i < |ds| ==> ds[i].group + ds[i].ngroups <= |gs|)
      && DomainStates(ds, gs) == AllStates(domains)
    decreases |domains|
  {
    if domains != [] {
      var init := domains[..|domains| - 1];
      DomainsAreAll(init);
      CpuDomainsAreAll(|domains|, domains[|domains| - 1], AllDomains(init));
    }
  }

  // ---- what the host should see, said without tables ----

  /** The path that a task shows: its own cgroup's, if the walk kept it, and else the root's. */
  function ShownPath(kept: seq<Cgroup>, path: string): string
    requires kept != []
  {
    if exists i :: 0 <= i < |kept| && kept[i].path == path then path else kept[0].path
  }

  function LiveStates(kept: seq<Cgroup>, tasks: seq<Task>): seq<TaskState>
    requires kept != []
  {
    if tasks == [] then []
    else
      var t := tasks[|tasks| - 1];
      LiveStates(kept, tasks[..|tasks| - 1])
      + (if Picks(Live, t) then [TaskState(|tasks|, ShownPath(kept, t.path), t.body)] else [])
  }

  function FairStates(kept: seq<Cgroup>, tasks: seq<Task>): seq<EntityState>
    requires kept != []
  {
    if tasks == [] then []
    else
      var t := tasks[|tasks| - 1];
      FairStates(kept, tasks[..|tasks| - 1])
      + (if Picks(LiveFair, t) then [EntityState(|tasks|, ShownPath(kept, t.path), t.cpu, t.member)] else [])
  }

  function RtStates(tasks: seq<Task>): seq<RtRec> {
    if tasks == [] then []
    else
      var t := tasks[|tasks| - 1];
      RtStates(tasks[..|tasks| - 1]) + (if Picks(LiveRt, t) then [RtRec(|tasks|, t.member)] else [])
  }

  /** A cgroup's own entities, under its own path. */
  function GroupStates(path: string, group: seq<Option<int>>): seq<EntityState> {
    if group == [] then []
    else
      var last := group[|group| - 1];
      GroupStates(path, group[..|group| - 1]) + (if last.Some? then [EntityState(0, path, |group|, last.value)] else [])
  }

  function AllGroupStates(kept: seq<Cgroup>): seq<EntityState> {
    if kept == [] then []
    else AllGroupStates(kept[..|kept| - 1]) + GroupStates(kept[|kept| - 1].path, kept[|kept| - 1].group)
  }

  /** The number of the session's task that runs there, or 0. */
  predicate RunsThere(tasks: seq<Task>, running: int, n: nat) {
    if n == 0 then forall i :: 0 <= i < |tasks| ==> tasks[i].id != running
    else n <= |tasks| && tasks[n - 1].id == running
  }

  /** Each test CPU's record, in order. */
  predicate CpusShown(m: Machine, cpus: seq<CpuRec>) {
    |cpus| == |m.cpus| && forall c :: 0 <= c < |cpus| ==>
      cpus[c].cpu == c + 1 && cpus[c].body == m.cpus[c].body && RunsThere(m.tasks, m.cpus[c].running, cpus[c].curr)
  }

  lemma {:induction false} CurrentRuns(tasks: seq<Task>, running: int)
    ensures RunsThere(tasks, running, Current(tasks, running))
    decreases |tasks|
  {
    if tasks != [] {
      CurrentRuns(tasks[..|tasks| - 1], running);
    }
  }

  lemma PathIsShown(kept: seq<Cgroup>, path: string)
    requires kept != []
    ensures RowOf(RowsOf(kept), path) < |kept| && PathOf(RowsOf(kept), RowOf(RowsOf(kept), path)) == ShownPath(kept, path)
  {
    RowHasThePath(RowsOf(kept), path);
    if i :| 0 <= i < |kept| && kept[i].path == path {
      assert RowsOf(kept)[i].path == path;
    }
    if i :| 0 <= i < |kept| && RowsOf(kept)[i].path == path {
      assert kept[i].path == path;
    }
  }

  lemma StatesOfBoth(a: seq<EntityRec>, b: seq<EntityRec>, rows: seq<CgroupRec>)
    ensures EntityStates(a + b, rows) == EntityStates(a, rows) + EntityStates(b, rows)
  {}

  lemma {:induction false} MembersShow(kept: seq<Cgroup>, tasks: seq<Task>, before: seq<EntityRec>)
    requires kept != [] && |tasks| <= TASKS && |before| + |tasks| <= ENTITIES
    ensures var ms, rows := MembersOf(RowsOf(kept), tasks, before), RowsOf(kept);
      && |ms.tasks| <= |tasks| && |ms.entities| <= |before| + |tasks|
      && TaskStates(ms.tasks, rows) == LiveStates(kept, tasks)
      && EntityStates(ms.entities, rows) == EntityStates(before, rows) + FairStates(kept, tasks)
      && ms.rts == RtStates(tasks)
    decreases |tasks|
  {
    var rows := RowsOf(kept);
    if tasks != [] {
      var init, t := tasks[..|tasks| - 1], tasks[|tasks| - 1];
      var ms := MembersOf(rows, init, before);
      MembersShow(kept, init, before);
      PathIsShown(kept, t.path);
      if t.live {
        var row := RowOf(rows, t.path);
        TaskShows(ms.tasks, TaskRec(|tasks|, row, t.body), rows);
        if t.policy.Fair? {
          var e := EntityRec(|tasks|, row, t.cpu, t.member);
          EntityShows(ms.entities, e, rows);
          assert EntityStates(before, rows) + FairStates(kept, init) + [EntityState(|tasks|, ShownPath(kept, t.path), t.cpu, t.member)]
            == EntityStates(before, rows) + FairStates(kept, tasks);
        }
      }
    }
  }

  lemma TaskShows(ts: seq<TaskRec>, t: TaskRec, rows: seq<CgroupRec>)
    ensures TaskStates(ts + [t], rows) == TaskStates(ts, rows) + [TaskState(t.task, PathOf(rows, t.cgroup), t.body)]
  {}

  lemma EntityShows(es: seq<EntityRec>, e: EntityRec, rows: seq<CgroupRec>)
    ensures EntityStates(es + [e], rows) == EntityStates(es, rows) + [EntityState(e.task, PathOf(rows, e.cgroup), e.cpu, e.body)]
  {}

  lemma {:induction false} GroupShows(row: nat, path: string, group: seq<Option<int>>, rows: seq<CgroupRec>)
    requires PathOf(rows, row) == path
    ensures EntityStates(Placed(row, group), rows) == GroupStates(path, group)
    decreases |group|
  {
    if group != [] {
      var n := |group| - 1;
      GroupShows(row, path, group[..n], rows);
      if group[n].Some? {
        EntityShows(Placed(row, group[..n]), EntityRec(0, row, |group|, group[n].value), rows);
      }
    }
  }

  lemma {:induction false} AllGroupsShow(kept: seq<Cgroup>, n: nat)
    requires n <= |kept|
    ensures EntityStates(AllPlaced(kept[..n]), RowsOf(kept)) == AllGroupStates(kept[..n])
    decreases n
  {
    if n > 0 {
      AllGroupsShow(kept, n - 1);
      assert kept[..n][..n - 1] == kept[..n - 1];
      GroupShows(n - 1, kept[n - 1].path, kept[n - 1].group, RowsOf(kept));
      StatesOfBoth(AllPlaced(kept[..n - 1]), Placed(n - 1, kept[n - 1].group), RowsOf(kept));
    }
  }

  // ---- the result ----

  /** Within the limits the host sees the machine, record for record: every test CPU, every live task once and
      under its own cgroup's path, every fair or real-time one once in its class's table and in no other, every
      entity of every cgroup under that cgroup's path, and every domain with all its groups. */
  lemma NothingIsDropped(m: Machine)
    requires Within(m)
    ensures var s, kept := StateOf(m), KeptOf(m.walk);
      && s.timestamp == m.now && CpusShown(m, s.cpus)
      && s.cgroups == RowsOf(kept)
      && s.tasks == LiveStates(kept, m.tasks)
      && s.entities == AllGroupStates(kept) + FairStates(kept, m.tasks)
      && s.rts == RtStates(m.tasks)
      && s.domains == AllStates(m.domains)
  {
    var kept, n := KeptOf(m.walk), |m.cpus|;
    WalkKeepsAll(m.walk, n);
    OneMoreRow(CGROUPS - 1, n);
    MulMonotone(|kept| - 1, CGROUPS - 1, n);
    MembersShow(kept, m.tasks, AllPlaced(kept));
    AllGroupsShow(kept, |kept|);
    assert kept[..|kept|] == kept;
    DomainsAreAll(m.domains);
    forall c | 0 <= c < n
      ensures RunsThere(m.tasks, m.cpus[c].running, Current(m.tasks, m.cpus[c].running))
    {
      CurrentRuns(m.tasks, m.cpus[c].running);
    }
  }

  function TaskNumbers(ts: seq<TaskState>): seq<nat> { seq(|ts|, i requires 0 <= i < |ts| => ts[i].task) }

  function EntityNumbers(es: seq<EntityState>): seq<nat> { seq(|es|, i requires 0 <= i < |es| => es[i].task) }

  /** What is shown of tasks is shown of the tasks picked, each once and in order. */
  lemma {:induction false} ShownOnce(kept: seq<Cgroup>, tasks: seq<Task>)
    requires kept != []
    ensures TaskNumbers(LiveStates(kept, tasks)) == Numbers(tasks, Live)
    ensures EntityNumbers(FairStates(kept, tasks)) == Numbers(tasks, LiveFair)
    ensures RtRows(RtStates(tasks)) == Numbers(tasks, LiveRt)
    decreases |tasks|
  {
    if tasks != [] {
      ShownOnce(kept, tasks[..|tasks| - 1]);
    }
  }

  /** A task's cgroup reads as its own path, if the walk kept it, and else as the root's. */
  lemma {:induction false} RowHasThePath(rows: seq<CgroupRec>, path: string)
    requires rows != []
    ensures RowOf(rows, path) < |rows|
    ensures PathOf(rows, RowOf(rows, path)) == if exists i :: 0 <= i < |rows| && rows[i].path == path then path else rows[0].path
  {
    FirstRowFinds(rows, path);
  }

  lemma {:induction false} FirstRowFinds(rows: seq<CgroupRec>, path: string)
    ensures FirstRow(rows, path).Some? <==> exists i :: 0 <= i < |rows| && rows[i].path == path
    ensures FirstRow(rows, path).Some? ==> FirstRow(rows, path).value < |rows| && rows[FirstRow(rows, path).value].path == path
    decreases |rows|
  {
    if rows != [] {
      var n := |rows| - 1;
      FirstRowFinds(rows[..n], path);
      assert forall i :: 0 <= i < n ==> rows[..n][i] == rows[i];
    }
  }

  /** Beyond the limits too: the runs of the recorded domains lie end to end and cover the group table. */
  lemma {:induction false} RunsTile(cpu: nat, ds: seq<Domain>, r: (seq<DomainRec>, seq<int>))
    requires Tiled(r.0, |r.1|) && |r.1| <= GROUPS
    ensures Tiled(CpuDomains(cpu, ds, r).0, |CpuDomains(cpu, ds, r).1|) && |CpuDomains(cpu, ds, r).1| <= GROUPS
    decreases |ds|
  {
    if ds != [] {
      RunsTile(cpu, ds[..|ds| - 1], r);
      var before := CpuDomains(cpu, ds[..|ds| - 1], r);
      if |before.0| < DOMAINS {
        assert CpuDomains(cpu, ds, r).0[..|before.0|] == before.0;
      }
    }
  }

  predicate Tiled(ds: seq<DomainRec>, end: nat)
    decreases |ds|
  {
    if ds == [] then end == 0
    else
      var last := ds[|ds| - 1];
      last.group + last.ngroups == end && Tiled(ds[..|ds| - 1], last.group)
  }

  lemma {:induction false} AllRunsTile(domains: seq<seq<Domain>>)
    ensures Tiled(AllDomains(domains).0, |AllDomains(domains).1|) && |AllDomains(domains).1| <= GROUPS
    decreases |domains|
  {
    if domains != [] {
      var init := domains[..|domains| - 1];
      AllRunsTile(init);
      RunsTile(|domains|, domains[|domains| - 1], AllDomains(init));
    }
  }
}
