/** The old fuzzer's executor (docs/archive/old_fuzzer/kmod): its own tables of tasks and cgroups, and
    the checks it makes before it acts on an operation. */
module Executor {
  import opened Digits

  const MAX := 1024      // MAX_TASKS and MAX_CGROUPS
  const NAME_LEN := 256  // MAX_CGROUP_NAME_LEN

  /** kstep_cgroups[] and kstep_tasks[]: which exist, under which parent, in which cgroup (-1: the root). */
  datatype Tables = Tables(exist: seq<bool>, parent: seq<int>, live: seq<bool>, cgroup: seq<int>)

  predicate Shape(e: Tables) { |e.exist| == |e.parent| == |e.live| == |e.cgroup| == MAX }

  predicate ValidId(id: int) { 0 <= id < MAX }

  predicate Exists(e: Tables, id: int)
    requires Shape(e)
  {
    ValidId(id) && e.exist[id]
  }

  predicate Live(e: Tables, t: int)
    requires Shape(e)
  {
    ValidId(t) && e.live[t]
  }

  predicate IsLeaf(e: Tables, id: int)
    requires Shape(e)
  {
    forall i :: 0 <= i < MAX && e.exist[i] ==> e.parent[i] != id
  }

  /** The chain of parents from id up, id first; None where it leaves the table or exceeds it. */
  function Chain(e: Tables, id: int, room: nat): (r: (bool, seq<int>))
    requires Shape(e)
    ensures |r.1| <= room
    decreases room
  {
    if id == -1 then (true, [])
    else if !Exists(e, id) || room == 0 then (false, [])
    else var (ok, rest) := Chain(e, e.parent[id], room - 1); (ok, [id] + rest)
  }

  /** Having passed lineage on the way up from id, with room for so many in all, the walk stands at cur. */
  predicate Walked(e: Tables, id: int, room: nat, lineage: seq<int>, cur: int)
    requires Shape(e) && |lineage| <= room
  {
    var (ok, rest) := Chain(e, cur, room - |lineage|);
    Chain(e, id, room) == (ok, lineage + rest)
  }

  lemma WalkOn(e: Tables, id: int, room: nat, lineage: seq<int>, cur: int)
    requires Shape(e) && |lineage| < room && cur != -1 && Exists(e, cur) && Walked(e, id, room, lineage, cur)
    ensures Walked(e, id, room, lineage + [cur], e.parent[cur])
  {
    var rest := Chain(e, e.parent[cur], room - |lineage| - 1).1;
    assert lineage + ([cur] + rest) == (lineage + [cur]) + rest;
  }

  predicate NameOk(e: Tables, id: int)
    requires Shape(e)
  {
    Chain(e, id, MAX).0
  }

  function Element(id: int): string
    requires id >= 0
  {
    "cg" + Dec(id)
  }

  /** cgA/cgB/cgC, for a chain that ends in A. */
  function Path(chain: seq<int>): string
    requires forall i :: 0 <= i < |chain| ==> chain[i] >= 0
  {
    if chain == [] then ""
    else if |chain| == 1 then Element(chain[0])
    else Path(chain[1..]) + "/" + Element(chain[0])
  }

  /** What fits into the name's buffer with its terminator. */
  function Cut(s: string): string { if |s| < NAME_LEN then s else s[..NAME_LEN - 1] }

  // ---- what each operation leaves, and whether it is accepted ----

  function AllToRoot(e: Tables, id: int): Tables
    requires Shape(e)
  {
    e.(cgroup := seq(MAX, t requires 0 <= t < MAX && Shape(e) => if e.live[t] && e.cgroup[t] == id then -1 else e.cgroup[t]))
  }

  function Create(e: Tables, parent: int, child: int): (Tables, bool)
    requires Shape(e)
  {
    if !ValidId(child) || e.exist[child] then (e, false)
    else if parent != -1 && !Exists(e, parent) then (e, false)
    else
      var e1 := e.(exist := e.exist[child := true], parent := e.parent[child := parent]);
      if !NameOk(e1, child) then (e1, false)
      else (if parent == -1 then e1 else AllToRoot(e1, parent), true)
  }

  predicate SetCpuset(e: Tables, ncpus: nat, id: int, begin: int, end: int)
    requires Shape(e)
  {
    Exists(e, id) && NameOk(e, id) && 1 <= begin <= end <= ncpus - 1
  }

  predicate SetWeight(e: Tables, id: int, weight: int)
    requires Shape(e)
  {
    Exists(e, id) && NameOk(e, id) && 0 < weight <= 10000
  }

  function AddTask(e: Tables, id: int, t: int): (Tables, bool)
    requires Shape(e)
  {
    if !Exists(e, id) || !NameOk(e, id) || !Live(e, t) then (e, false)
    else (e.(cgroup := e.cgroup[t := id]), true)
  }

  function Destroy(e: Tables, id: int): (Tables, bool)
    requires Shape(e)
  {
    if !Exists(e, id) || !IsLeaf(e, id) || !NameOk(e, id) then (e, false)
    else (AllToRoot(e, id).(exist := e.exist[id := false], parent := e.parent[id := -1]), true)
  }

  function MoveRoot(e: Tables, id: int, t: int): (Tables, bool)
    requires Shape(e)
  {
    if !Exists(e, id) || !Live(e, t) || e.cgroup[t] != id then (e, false)
    else (e.(cgroup := e.cgroup[t := -1]), true)
  }

  /** The task operations' own part, once the task's state has been found ready. */
  function TaskCreate(e: Tables, t: int): (Tables, bool)
    requires Shape(e)
  {
    if !ValidId(t) || e.live[t] then (e, false)
    else (e.(live := e.live[t := true], cgroup := e.cgroup[t := -1]), true)
  }

  function TaskFork(e: Tables, t: int, child: int): (Tables, bool)
    requires Shape(e)
  {
    if !ValidId(t) || !ValidId(child) || !e.live[t] || e.live[child] then (e, false)
    else (e.(live := e.live[child := true], cgroup := e.cgroup[child := e.cgroup[t]]), true)
  }

  function TaskFifo(e: Tables, t: int): (Tables, bool)
    requires Shape(e)
  {
    if !Live(e, t) then (e, false) else (e.(cgroup := e.cgroup[t := -1]), true)
  }

  /** What an operation's handler comes to: the last ends the run. */
  datatype Answer = Accepted | Refused | Panicked

  // ---- the tables themselves ----

  class Executor {
    const ncpus: nat
    const exist: array<bool>
    const parent: array<int>
    const live: array<bool>
    const cgroup: array<int>

    ghost predicate Valid()
      reads this, exist, parent, live, cgroup
    {
      && exist.Length == parent.Length == live.Length == cgroup.Length == MAX
      && parent != cgroup && exist != live
    }

    ghost function View(): (e: Tables)
      requires Valid()
      reads this, exist, parent, live, cgroup
      ensures Shape(e)
    {
      Tables(exist[..], parent[..], live[..], cgroup[..])
    }

    constructor (ncpus: nat)
      ensures Valid() && fresh(exist) && fresh(parent) && fresh(live) && fresh(cgroup)
      ensures forall id :: !Exists(View(), id) && !Live(View(), id)
    {
      this.ncpus := ncpus;
      exist := new bool[MAX](_ => false);
      parent := new int[MAX](_ => -1);
      live := new bool[MAX](_ => false);
      cgroup := new int[MAX](_ => -1);
    }

    method CgroupIsLeaf(id: int) returns (leaf: bool)
      requires Valid()
      ensures leaf == IsLeaf(View(), id)
    {
      for i := 0 to MAX
        invariant forall j :: 0 <= j < i && exist[j] ==> parent[j] != id
      {
        if exist[i] && parent[i] == id {
          return false;
        }
      }
      leaf := true;
    }

    method MoveTasksToRoot(id: int)
      requires Valid()
      modifies cgroup
      ensures View() == AllToRoot(old(View()), id)
    {
      for i := 0 to MAX
        invariant forall t :: 0 <= t < i ==> cgroup[t] == if live[t] && old(cgroup[t]) == id then -1 else old(cgroup[t])
        invariant forall t :: i <= t < MAX ==> cgroup[t] == old(cgroup[t])
      {
        if !live[i] || cgroup[i] != id {
          continue;
        }
        cgroup[i] := -1;
      }
      assert cgroup[..] == AllToRoot(old(View()), id).cgroup;
    }

    /** kstep_build_cgroup_name's walk to the root, into cgroup_lineage. */
    method Lineage(id: int) returns (ok: bool, lineage: seq<int>)
      requires Valid()
      ensures ok == NameOk(View(), id)
      ensures ok ==> lineage == Chain(View(), id, MAX).1 && forall i :: 0 <= i < |lineage| ==> lineage[i] >= 0
      ensures |lineage| <= MAX
    {
      ghost var e := View();
      ghost var room: nat :| room == MAX;
      assert [] + Chain(e, id, room).1 == Chain(e, id, room).1;
      var cur := id;
      lineage := [];
      while cur != -1
        invariant |lineage| <= MAX
        invariant forall i :: 0 <= i < |lineage| ==> lineage[i] >= 0
        invariant Walked(e, id, room, lineage, cur)
        decreases MAX - |lineage|
      {
        if !(0 <= cur < MAX) || !exist[cur] || |lineage| >= MAX {
          return false, lineage;
        }
        WalkOn(e, id, room, lineage, cur);
        lineage := lineage + [cur];
        cur := parent[cur];
      }
      ok := true;
    }

    /** The name is true to the chain only as long as it fits: the check for a name that does not
        cannot fire, because scnprintf never reports more than it wrote. */
    method BuildCgroupName(id: int) returns (ok: bool, name: string)
      requires Valid()
      ensures ok == NameOk(View(), id)
      ensures ok ==> var chain := Chain(View(), id, MAX).1;
        (forall i :: 0 <= i < |chain| ==> chain[i] >= 0) && name == Cut(Path(chain))
    {
      var lineage;
      ok, lineage := Lineage(id);
      name := "";
      if !ok {
        return;
      }
      var i := |lineage|;
      while i > 0
        invariant 0 <= i <= |lineage|
        invariant name == Cut(Tail(lineage, i))
      {
        i := i - 1;
        var piece := Element(lineage[i]) + (if i > 0 then "/" else "");
        NameGrows(lineage, i);
        CutAppends(Tail(lineage, i + 1), piece);
        name := name + piece[..if |piece| < NAME_LEN - |name| then |piece| else NAME_LEN - 1 - |name|];
        if |name| >= NAME_LEN {
          return false, "";
        }
      }
      assert lineage[0..] == lineage;
    }

    // ---- the operations: a refusal may come after the tables have changed ----

    /** resolves is whether the kernel has a task group for the new cgroup. */
    method CgroupCreate(parentId: int, childId: int, resolves: bool) returns (answer: Answer)
      requires Valid()
      modifies exist, parent, cgroup
      ensures View() == Create(old(View()), parentId, childId).0
      ensures answer == if !Create(old(View()), parentId, childId).1 then Refused else if resolves then Accepted else Panicked
    {
      if !(0 <= childId < MAX) || exist[childId] {
        return Refused;
      }
      if parentId != -1 && (!(0 <= parentId < MAX) || !exist[parentId]) {
        return Refused;
      }
      parent[childId] := parentId;
      exist[childId] := true;
      var named, _ := BuildCgroupName(childId);
      if !named {
        return Refused;
      }
      if parentId != -1 {
        MoveTasksToRoot(parentId);
      }
      answer := if resolves then Accepted else Panicked;
    }

    method CgroupSetCpuset(id: int, begin: int, end: int) returns (ok: bool)
      requires Valid()
      ensures ok == SetCpuset(View(), ncpus, id, begin, end)
    {
      if !(0 <= id < MAX) || !exist[id] {
        return false;
      }
      var named, _ := BuildCgroupName(id);
      ok := named && !(begin > end || begin < 1 || end > ncpus - 1);
    }

    method CgroupSetWeight(id: int, weight: int) returns (ok: bool)
      requires Valid()
      ensures ok == SetWeight(View(), id, weight)
    {
      if !(0 <= id < MAX) || !exist[id] {
        return false;
      }
      var named, _ := BuildCgroupName(id);
      ok := named && !(weight <= 0 || weight > 10000);
    }

    method CgroupAddTask(id: int, task: int) returns (ok: bool)
      requires Valid()
      modifies cgroup
      ensures (View(), ok) == AddTask(old(View()), id, task)
    {
      if !(0 <= id < MAX) || !exist[id] {
        return false;
      }
      var named, _ := BuildCgroupName(id);
      if !named || !(0 <= task < MAX) || !live[task] {
        return false;
      }
      cgroup[task] := id;
      ok := true;
    }

    method CgroupDestroy(id: int) returns (ok: bool)
      requires Valid()
      modifies exist, parent, cgroup
      ensures (View(), ok) == Destroy(old(View()), id)
    {
      if !(0 <= id < MAX) || !exist[id] {
        return false;
      }
      var leaf := CgroupIsLeaf(id);
      if !leaf {
        return false;
      }
      var named, _ := BuildCgroupName(id);
      if !named {
        return false;
      }
      MoveTasksToRoot(id);
      exist[id] := false;
      parent[id] := -1;
      ok := true;
    }

    method CgroupMoveTaskRoot(id: int, task: int) returns (ok: bool)
      requires Valid()
      modifies cgroup
      ensures (View(), ok) == MoveRoot(old(View()), id, task)
    {
      if !(0 <= id < MAX) || !exist[id] || !(0 <= task < MAX) || !live[task] || cgroup[task] != id {
        return false;
      }
      cgroup[task] := -1;
      ok := true;
    }

    /** None of the three task operations below says what the task does, only where it is entered. Creating has no
        refusal: an id out of range or taken is a panic. */
    method EnterTask(task: int) returns (answer: Answer)
      requires Valid()
      modifies live, cgroup
      ensures View() == TaskCreate(old(View()), task).0
      ensures answer == if TaskCreate(old(View()), task).1 then Accepted else Panicked
    {
      if !(0 <= task < MAX) || live[task] {
        return Panicked;
      }
      live[task] := true;
      cgroup[task] := -1;
      answer := Accepted;
    }

    /** running is whether the task is on a CPU with no reschedule pending; one that is not is a panic, once the
        ids have been found in order. */
    method EnterChild(task: int, child: int, running: bool) returns (answer: Answer)
      requires Valid()
      modifies live, cgroup
      ensures View() == if running then TaskFork(old(View()), task, child).0 else old(View())
      ensures answer == if !TaskFork(old(View()), task, child).1 then Refused else if running then Accepted else Panicked
    {
      if !(0 <= task < MAX) || !(0 <= child < MAX) || !live[task] || live[child] {
        return Refused;
      }
      if !running {
        return Panicked;
      }
      live[child] := true;
      cgroup[child] := cgroup[task];
      answer := Accepted;
    }

    method ToFifo(task: int, running: bool) returns (answer: Answer)
      requires Valid()
      modifies cgroup
      ensures View() == if running then TaskFifo(old(View()), task).0 else old(View())
      ensures answer == if !TaskFifo(old(View()), task).1 then Refused else if running then Accepted else Panicked
    {
      if !(0 <= task < MAX) || !live[task] {
        return Refused;
      }
      if !running {
        return Panicked;
      }
      cgroup[task] := -1;
      answer := Accepted;
    }
  }

  /** The name of all but the first i of a chain, with the slash that the rest will follow. */
  function Tail(chain: seq<int>, i: nat): string
    requires i <= |chain| && forall j :: 0 <= j < |chain| ==> chain[j] >= 0
  {
    Path(chain[i..]) + (if 0 < i < |chain| then "/" else "")
  }

  lemma NameGrows(chain: seq<int>, i: nat)
    requires i < |chain| && forall j :: 0 <= j < |chain| ==> chain[j] >= 0
    ensures Tail(chain, i) == Tail(chain, i + 1) + (Element(chain[i]) + (if i > 0 then "/" else ""))
  {
    assert chain[i..][1..] == chain[i + 1..];
  }

  /** Appending to what was cut, and cutting, is cutting the whole. */
  lemma CutAppends(s: string, piece: string)
    ensures Cut(s + piece) == Cut(s) + piece[..if |piece| < NAME_LEN - |Cut(s)| then |piece| else NAME_LEN - 1 - |Cut(s)|]
  {
  }
}
