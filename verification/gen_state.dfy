/** The generator's class itself, changed in place, each method tied to what MirrorOps says it leaves. */
module GenState {
  import opened Lists
  import opened Mirror
  import opened MirrorOps

  class GenState {
    const cpus: nat
    var order: seq<int>
    var cgroups: map<int, Cgroup>
    var leaves: seq<int>
    var tasks: map<int, int>

    ghost function View(): Mirror
      reads this
    {
      Mirror(cpus, order, cgroups, leaves, tasks)
    }

    constructor (cpus: nat)
      ensures View() == Mirror(cpus, [], map[], [], map[]) && Good(View())
    {
      this.cpus := cpus;
      order, cgroups, leaves, tasks := [], map[], [], map[];
    }

    /** _refresh_effective_cpuset: the cgroup, then each child in the dict's order, recursively. */
    method RefreshEffective(id: int, ghost parents: map<int, int>)
      requires Tree(order, parents) && Agrees(parents, cgroups) && id in cgroups
      modifies this`cgroups
      ensures OnlyCachesChange(old(cgroups), cgroups) && Agrees(parents, cgroups)
      ensures OutsideKept(order, parents, id, old(cgroups), cgroups)
      ensures forall x :: x in parents && Below(order, parents, id, x) ==> FreshAt(cpus, cgroups, x)
      decreases |order| - Pos(order, id)
    {
      assert parents[id] == cgroups[id].parent && ParentFirst(order, parents, id);
      ghost var was := cgroups;
      var cgroup := cgroups[id];
      cgroups := cgroups[id := cgroup.(effective := Effective(cgroup.cpuset, ParentEffective(cpus, cgroups, cgroup.parent)))];
      NoBranches(cpus, order, parents, id, cgroups);
      for i := 0 to |order|
        invariant OnlyCachesChange(was, cgroups) && Agrees(parents, cgroups)
        invariant OutsideKept(order, parents, id, was, cgroups)
        invariant FreshAt(cpus, cgroups, id) && BranchesFresh(cpus, order, parents, id, i, cgroups)
      {
        var child := order[i];
        assert child in order && parents[child] == cgroups[child].parent && ParentFirst(order, parents, child);
        ghost var before := cgroups;
        if cgroups[child].parent == id {
          RefreshEffective(child, parents);
          BranchDone(cpus, order, parents, id, i, was, before, cgroups);
        } else {
          BranchSkipped(cpus, order, parents, id, i, cgroups);
        }
      }
      AllBranches(cpus, order, parents, id, cgroups);
    }

    method AddCgroup(parent: int, child: int)
      requires Good(View()) && (parent == -1 || parent in cgroups) && child !in cgroups && child >= 0
      modifies this
      ensures View() == Added(old(View()), parent, child) && Good(View())
    {
      ghost var was := View();
      AddedIsGood(was, parent, child);
      assert child !in leaves by { assert child in leaves ==> Childless(was, child); }
      var effective := ParentEffective(cpus, cgroups, parent);
      cgroups := cgroups[child := Cgroup(parent, RootCpuset(cpus), Effective(RootCpuset(cpus), effective))];
      order := order + [child];
      if child !in leaves {
        leaves := leaves + [child];
      }
      if parent != -1 && parent in leaves {
        leaves := Without(leaves, parent);
      } else {
        WithoutNothing(leaves, parent);
      }
      if parent != -1 {
        RemoveTasksOf(parent);
      }
    }

    /** The loop over list(task2cgroups.items()) that both removals run. */
    method RemoveTasksOf(id: int)
      modifies this`tasks
      ensures tasks == DropTasks(old(tasks), id)
    {
      var items := tasks.Keys;
      ghost var was := tasks;
      while |items| > 0
        invariant items <= was.Keys && items <= tasks.Keys
        invariant tasks == map t | t in was && (t in items || was[t] != id) :: was[t]
        decreases |items|
      {
        ghost var some := Element(items);
        var task :| task in items;
        if tasks[task] == id {
          CgroupRemoveTask(task);
        }
        items := items - {task};
      }
    }

    method SetCgroupCpuset(id: int, cpuset: Range)
      requires Good(View()) && id in cgroups
      modifies this
      ensures Alike(View(), Recut(old(View()), id, cpuset)) && Good(View())
    {
      ghost var was := View();
      ghost var parents := Parents(cgroups);
      cgroups := cgroups[id := cgroups[id].(cpuset := cpuset)];
      ghost var m1 := View();
      RefreshEffective(id, parents);
      RecutReached(was, m1, View(), id, cpuset);
    }

    method CgroupAddTask(id: int, task: int)
      requires Good(View()) && id in leaves
      modifies this`tasks
      ensures View() == Placed(old(View()), id, task) && Good(View())
    {
      PlacedIsGood(View(), id, task);
      tasks := tasks[task := id];
    }

    method CgroupRemoveTask(task: int)
      modifies this`tasks
      ensures tasks == DropTask(old(tasks), task)
    {
      tasks := DropTask(tasks, task);
    }

    /** list.remove raises for a cgroup that is not a leaf. */
    method RemoveCgroup(id: int)
      requires Good(View()) && (id in cgroups ==> id in leaves)
      modifies this
      ensures View() == Removed(old(View()), id) && Good(View())
    {
      RemovedIsGood(View(), id);
      if id !in cgroups {
        return;
      }
      var parent := cgroups[id].parent;
      cgroups := map x | x in cgroups && x != id :: cgroups[x];
      order := Without(order, id);
      leaves := Without(leaves, id);
      RemoveTasksOf(id);
      if parent == -1 {
        return;
      }
      if (forall x | x in cgroups :: cgroups[x].parent != parent) && parent !in leaves {
        leaves := leaves + [parent];
      }
    }
  }

  lemma Element<T>(s: set<T>) returns (x: T)
    requires |s| > 0
    ensures x in s
  {
    x :| x in s;
  }

  lemma {:induction false} WithoutNothing(s: seq<int>, x: int)
    requires x !in s
    ensures Without(s, x) == s
  {
    if s != [] {
      WithoutNothing(s[1..], x);
    }
  }

  /** The subtrees of those children of id among the dict's first n keys. */
  ghost predicate BranchesFresh(cpus: nat, order: seq<int>, parents: map<int, int>, id: int, n: nat, cgroups: map<int, Cgroup>)
    requires Tree(order, parents) && n <= |order|
  {
    forall i, x {:trigger Below(order, parents, order[i], x)} ::
      0 <= i < n && order[i] in parents && parents[order[i]] == id && x in parents && Below(order, parents, order[i], x) ==>
        FreshAt(cpus, cgroups, x)
  }

  /** The refresh of one child's branch leaves id's own cache fresh, */
  lemma ParentStaysFresh(cpus: nat, order: seq<int>, parents: map<int, int>, id: int, child: int,
                         before: map<int, Cgroup>, after: map<int, Cgroup>)
    requires Tree(order, parents) && Agrees(parents, before) && Agrees(parents, after)
    requires id in parents && child in parents && parents[child] == id
    requires OutsideKept(order, parents, child, before, after) && FreshAt(cpus, before, id)
    ensures FreshAt(cpus, after, id)
  {
    ChildIsApart(order, parents, id, child);
    OthersStayFresh(cpus, order, parents, child, before, after);
  }

  /** and every cache in another child's branch, */
  lemma SiblingStaysFresh(cpus: nat, order: seq<int>, parents: map<int, int>, id: int, child: int, sibling: int, x: int,
                          before: map<int, Cgroup>, after: map<int, Cgroup>)
    requires Tree(order, parents) && Agrees(parents, before) && Agrees(parents, after)
    requires id in parents && child in parents && parents[child] == id
    requires sibling in parents && parents[sibling] == id && sibling != child && x in parents && Below(order, parents, sibling, x)
    requires OutsideKept(order, parents, child, before, after) && FreshAt(cpus, before, x)
    ensures FreshAt(cpus, after, x)
  {
    ChildIsApart(order, parents, id, child);
    OthersStayFresh(cpus, order, parents, child, before, after);
  }

  /** and touches nothing outside id's. */
  lemma OutsideStaysKept(order: seq<int>, parents: map<int, int>, id: int, child: int,
                         was: map<int, Cgroup>, before: map<int, Cgroup>, after: map<int, Cgroup>)
    requires Tree(order, parents) && Agrees(parents, was) && Agrees(parents, before) && Agrees(parents, after)
    requires id in parents && child in parents && parents[child] == id
    requires OutsideKept(order, parents, id, was, before) && OutsideKept(order, parents, child, before, after)
    ensures OutsideKept(order, parents, id, was, after)
  {
    ChildIsApart(order, parents, id, child);
  }

  lemma BranchDone(cpus: nat, order: seq<int>, parents: map<int, int>, id: int, n: nat,
                   was: map<int, Cgroup>, before: map<int, Cgroup>, after: map<int, Cgroup>)
    requires Tree(order, parents) && n < |order| && id in parents && id != -1
    requires Agrees(parents, before) && Agrees(parents, after) && Agrees(parents, was)
    requires order[n] in parents && parents[order[n]] == id && OutsideKept(order, parents, order[n], before, after)
    requires forall x :: x in parents && Below(order, parents, order[n], x) ==> FreshAt(cpus, after, x)
    requires FreshAt(cpus, before, id) && BranchesFresh(cpus, order, parents, id, n, before)
    requires OutsideKept(order, parents, id, was, before)
    ensures FreshAt(cpus, after, id) && BranchesFresh(cpus, order, parents, id, n + 1, after)
    ensures OutsideKept(order, parents, id, was, after)
  {
    var child := order[n];
    ParentStaysFresh(cpus, order, parents, id, child, before, after);
    OutsideStaysKept(order, parents, id, child, was, before, after);
    forall i, x {:trigger Below(order, parents, order[i], x)} |
      0 <= i < n + 1 && order[i] in parents && parents[order[i]] == id && x in parents && Below(order, parents, order[i], x)
      ensures FreshAt(cpus, after, x)
    {
      if i < n {
        assert order[i] != child;
        SiblingStaysFresh(cpus, order, parents, id, child, order[i], x, before, after);
      } else {
        assert order[i] == child;
      }
    }
  }

  lemma NoBranches(cpus: nat, order: seq<int>, parents: map<int, int>, id: int, cgroups: map<int, Cgroup>)
    requires Tree(order, parents)
    ensures BranchesFresh(cpus, order, parents, id, 0, cgroups)
  {}

  lemma BranchSkipped(cpus: nat, order: seq<int>, parents: map<int, int>, id: int, n: nat, cgroups: map<int, Cgroup>)
    requires Tree(order, parents) && n < |order| && order[n] in parents && parents[order[n]] != id
    requires BranchesFresh(cpus, order, parents, id, n, cgroups)
    ensures BranchesFresh(cpus, order, parents, id, n + 1, cgroups)
  {}

  lemma AllBranches(cpus: nat, order: seq<int>, parents: map<int, int>, id: int, cgroups: map<int, Cgroup>)
    requires Tree(order, parents) && id in parents
    requires FreshAt(cpus, cgroups, id) && BranchesFresh(cpus, order, parents, id, |order|, cgroups)
    ensures forall x :: x in parents && Below(order, parents, id, x) ==> FreshAt(cpus, cgroups, x)
  {
    forall x | x in parents && Below(order, parents, id, x) && x != id
      ensures FreshAt(cpus, cgroups, x)
    {
      var child := BelowAChild(order, parents, id, x);
      assert order[Pos(order, child)] == child;
    }
  }

  ghost predicate SameKeys<A, B>(a: map<int, A>, b: map<int, B>) { forall x :: x in a <==> x in b }

  ghost predicate OnlyCachesChange(before: map<int, Cgroup>, after: map<int, Cgroup>) {
    && (forall x :: x in before <==> x in after)
    && forall x :: x in before ==> after[x] == before[x].(effective := after[x].effective)
  }

  ghost predicate OutsideKept(order: seq<int>, parents: map<int, int>, id: int, before: map<int, Cgroup>, after: map<int, Cgroup>)
    requires Tree(order, parents) && (forall x :: x in parents ==> x in before && x in after)
  {
    forall x :: x in parents && !Below(order, parents, id, x) ==> after[x] == before[x]
  }

  /** Refreshing one child's subtree leaves every cache outside it as fresh as it was. */
  lemma OthersStayFresh(cpus: nat, order: seq<int>, parents: map<int, int>, child: int,
                        before: map<int, Cgroup>, after: map<int, Cgroup>)
    requires Tree(order, parents) && Agrees(parents, before) && Agrees(parents, after)
    requires OutsideKept(order, parents, child, before, after)
    ensures forall x :: x in parents && !Below(order, parents, child, x) && FreshAt(cpus, before, x) ==> FreshAt(cpus, after, x)
  {
    forall x | x in parents && !Below(order, parents, child, x) && FreshAt(cpus, before, x)
      ensures FreshAt(cpus, after, x)
    {
      assert parents[x] == after[x].parent == before[x].parent;
    }
  }

  /** The same mirror, cgroup by cgroup. */
  ghost predicate Alike(a: Mirror, b: Mirror) {
    && a == b.(cgroups := a.cgroups)
    && SameKeys(a.cgroups, b.cgroups)
    && forall x :: x in a.cgroups ==> a.cgroups[x] == b.cgroups[x]
  }

  /** What the cpuset's change and the refresh leave together. */
  lemma RecutReached(was: Mirror, m1: Mirror, m: Mirror, id: int, cpuset: Range)
    requires Good(was) && id in was.cgroups
    requires m1 == was.(cgroups := was.cgroups[id := was.cgroups[id].(cpuset := cpuset)]) && m == was.(cgroups := m.cgroups)
    requires Agrees(Parents(was.cgroups), m.cgroups) && OnlyCachesChange(m1.cgroups, m.cgroups)
    requires var parents := Parents(was.cgroups);
      && OutsideKept(was.order, parents, id, m1.cgroups, m.cgroups)
      && forall x :: x in parents && Below(was.order, parents, id, x) ==> FreshAt(m.cpus, m.cgroups, x)
    ensures Alike(m, Recut(was, id, cpuset)) && Good(m)
  {
    AllFreshAfter(was, m1, m, id);
    ParentsKept(was, m1, m);
    RecutCaches(was, m1, m);
    SameParentsSameGoodness(was, m);
  }

  lemma ParentsKept(was: Mirror, m1: Mirror, m: Mirror)
    requires Tree(was.order, Parents(was.cgroups)) && SameParents(was.cgroups, m1.cgroups)
    requires Agrees(Parents(was.cgroups), m.cgroups)
    ensures SameParents(was.cgroups, m.cgroups) && SameParents(m.cgroups, m1.cgroups)
    ensures Tree(was.order, Parents(m.cgroups)) && Tree(was.order, Parents(m1.cgroups))
  {
    var parents := Parents(was.cgroups);
    forall x | x in was.cgroups
      ensures x in m.cgroups && m.cgroups[x].parent == was.cgroups[x].parent
    {
      assert x in parents && parents[x] == m.cgroups[x].parent;
    }
    SameParentsSameTree(was.order, was.cgroups, m.cgroups);
    SameParentsSameTree(was.order, was.cgroups, m1.cgroups);
  }

  lemma RecutCaches(was: Mirror, m1: Mirror, m: Mirror)
    requires m1 == was.(cgroups := m1.cgroups) && m == was.(cgroups := m.cgroups)
    requires Tree(was.order, Parents(m.cgroups)) && Tree(was.order, Parents(m1.cgroups)) && SameParents(m.cgroups, m1.cgroups)
    requires AllFresh(m.cpus, m.cgroups) && OnlyCachesChange(m1.cgroups, m.cgroups)
    ensures forall x :: x in m.cgroups ==> m.cgroups[x] == m1.cgroups[x].(effective := EffectiveOf(m1, x))
  {
    forall x | x in m.cgroups
      ensures m.cgroups[x] == m1.cgroups[x].(effective := EffectiveOf(m1, x))
    {
      FreshIsDefinition(m, m1, x);
    }
  }

  lemma SameParentsSameGoodness(was: Mirror, m: Mirror)
    requires Good(was) && m == was.(cgroups := m.cgroups) && SameParents(was.cgroups, m.cgroups)
    requires Tree(m.order, Parents(m.cgroups)) && AllFresh(m.cpus, m.cgroups)
    ensures Good(m)
  {
    forall x
      ensures x in m.leaves <==> Childless(m, x)
    {
      SameParentsSameLeaves(was, m, x);
    }
  }

  /** A cpuset is changed, making id's cache and those below it stale; then they are refreshed. */
  lemma AllFreshAfter(was: Mirror, m1: Mirror, m: Mirror, id: int)
    requires Good(was) && id in was.cgroups && m1 == was.(cgroups := m1.cgroups) && m == was.(cgroups := m.cgroups)
    requires Agrees(Parents(was.cgroups), m1.cgroups) && Agrees(Parents(was.cgroups), m.cgroups) && OnlyCachesChange(m1.cgroups, m.cgroups)
    requires forall x :: x in was.cgroups && x != id ==> x in m1.cgroups && m1.cgroups[x] == was.cgroups[x]
    requires id in m1.cgroups && m1.cgroups[id].effective == was.cgroups[id].effective
    requires var parents := Parents(was.cgroups);
      && OutsideKept(was.order, parents, id, m1.cgroups, m.cgroups)
      && forall x :: x in parents && Below(was.order, parents, id, x) ==> FreshAt(m.cpus, m.cgroups, x)
    ensures AllFresh(m.cpus, m.cgroups)
  {
    var parents := Parents(was.cgroups);
    forall x | x in m.cgroups
      ensures FreshAt(m.cpus, m.cgroups, x)
    {
      if !Below(was.order, parents, id, x) {
        assert FreshAt(was.cpus, was.cgroups, x);
        assert parents[x] == was.cgroups[x].parent && ParentFirst(was.order, parents, x);
        assert parents[x] != -1 ==> parents[x] in parents && !Below(was.order, parents, id, parents[x]);
      }
    }
  }

  /** A child's subtree holds neither its parent, nor anything outside its parent's, nor its siblings'. */
  lemma ChildIsApart(order: seq<int>, parents: map<int, int>, id: int, child: int)
    requires Tree(order, parents) && id in parents && child in parents && parents[child] == id
    ensures !Below(order, parents, child, id)
    ensures forall x :: x in parents && !Below(order, parents, id, x) ==> !Below(order, parents, child, x)
    ensures forall x, c :: x in parents && c in parents && c != child && parents[c] == id && Below(order, parents, c, x) ==>
              !Below(order, parents, child, x)
  {
    assert ParentFirst(order, parents, child);
    if Below(order, parents, child, id) {
      BelowIsLater(order, parents, child, id);
    }
    forall x | x in parents && Below(order, parents, child, x)
      ensures Below(order, parents, id, x)
    {
      BelowChildIsBelow(order, parents, id, child, x);
    }
    forall x, c | x in parents && c in parents && c != child && parents[c] == id && Below(order, parents, c, x)
      ensures !Below(order, parents, child, x)
    {
      BelowAtMostOneChild(order, parents, c, child, x);
    }
  }

  /** With every cache fresh, each is the definition, whatever the caches were before. */
  lemma {:induction false} FreshIsDefinition(m: Mirror, m1: Mirror, x: int)
    requires Tree(m.order, Parents(m.cgroups)) && AllFresh(m.cpus, m.cgroups) && x in m.cgroups
    requires m1.cpus == m.cpus && m1.order == m.order && Tree(m.order, Parents(m1.cgroups)) && SameParents(m.cgroups, m1.cgroups)
    requires forall y :: y in m.cgroups ==> y in m1.cgroups && m.cgroups[y].cpuset == m1.cgroups[y].cpuset
    ensures x in m1.cgroups && m.cgroups[x].effective == EffectiveOf(m1, x)
    decreases Pos(m.order, x)
  {
    var parents := Parents(m1.cgroups);
    assert parents[x] == m.cgroups[x].parent && ParentFirst(m1.order, parents, x);
    assert FreshAt(m.cpus, m.cgroups, x);
    if parents[x] != -1 {
      FreshIsDefinition(m, m1, parents[x]);
    }
  }
}
