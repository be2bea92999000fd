/** The generator's operations on its mirror: what each leaves, and that it leaves a good mirror. */
module MirrorOps {
  import opened Lists
  import opened Mirror

  // ---- what each operation leaves ----

  function DropTasks(tasks: map<int, int>, id: int): map<int, int> {
    map t | t in tasks && tasks[t] != id :: tasks[t]
  }

  function DropTask(tasks: map<int, int>, task: int): map<int, int> {
    map t | t in tasks && t != task :: tasks[t]
  }

  /** add_cgroup: a new leaf with the root's cpuset; its parent, no longer one, gives up its tasks. */
  function Added(m: Mirror, parent: int, child: int): Mirror
    requires parent == -1 || parent in m.cgroups
  {
    var effective := Effective(RootCpuset(m.cpus), ParentEffective(m.cpus, m.cgroups, parent));
    m.(order := m.order + [child],
       cgroups := m.cgroups[child := Cgroup(parent, RootCpuset(m.cpus), effective)],
       leaves := if parent == -1 then m.leaves + [child] else Without(m.leaves + [child], parent),
       tasks := if parent == -1 then m.tasks else DropTasks(m.tasks, parent))
  }

  /** set_cgroup_cpuset: every cache is again its definition, under the new cpuset. */
  ghost function Recut(m: Mirror, id: int, cpuset: Range): Mirror
    requires Tree(m.order, Parents(m.cgroups)) && id in m.cgroups
  {
    var m1 := m.(cgroups := m.cgroups[id := m.cgroups[id].(cpuset := cpuset)]);
    assert Parents(m1.cgroups) == Parents(m.cgroups);
    m1.(cgroups := map x | x in m1.cgroups :: m1.cgroups[x].(effective := EffectiveOf(m1, x)))
  }

  /** remove_cgroup: a leaf goes, with its place among the tasks, and may leave its parent a leaf. */
  function Removed(m: Mirror, id: int): Mirror {
    if id !in m.cgroups then m
    else
      var parent := m.cgroups[id].parent;
      var cgroups := map x | x in m.cgroups && x != id :: m.cgroups[x];
      var leaves := Without(m.leaves, id);
      m.(order := Without(m.order, id),
         cgroups := cgroups,
         leaves := if parent != -1 && parent !in leaves && (forall x :: x in cgroups ==> cgroups[x].parent != parent)
                   then leaves + [parent] else leaves,
         tasks := DropTasks(m.tasks, id))
  }

  function Placed(m: Mirror, id: int, task: int): Mirror { m.(tasks := m.tasks[task := id]) }

  function Unplaced(m: Mirror, task: int): Mirror { m.(tasks := DropTask(m.tasks, task)) }

  // ---- and it is good ----

  lemma {:induction false} PosIs(s: seq<int>, x: int, i: nat)
    requires i < |s| && s[i] == x && x !in s[..i]
    ensures Pos(s, x) == i
  {
    if i > 0 {
      assert s[0] == s[..i][0];
      assert s[1..][..i - 1] == s[..i][1..];
      PosIs(s[1..], x, i - 1);
    }
  }

  lemma PosOfAppend(s: seq<int>, x: int, y: int)
    requires x in s
    ensures Pos(s + [y], x) == Pos(s, x)
  {
    assert (s + [y])[..Pos(s, x)] == s[..Pos(s, x)];
    PosIs(s + [y], x, Pos(s, x));
  }

  lemma {:induction false} PosOfRemoval(s: seq<int>, x: int, y: int, gone: int)
    requires Distinct(s) && x in s && y in s && x != gone && y != gone && Pos(s, x) < Pos(s, y)
    ensures x in Without(s, gone) && y in Without(s, gone) && Pos(Without(s, gone), x) < Pos(Without(s, gone), y)
  {
    WithoutKeeps(s, gone);
    var r := Without(s, gone);
    if s[0] == gone {
      assert Pos(s, x) == Pos(s[1..], x) + 1 && Pos(s, y) == Pos(s[1..], y) + 1;
    } else if s[0] == x {
      assert r[0] == x;
    } else {
      assert s[0] != y;
      assert x in s[1..] && y in s[1..];
      PosOfRemoval(s[1..], x, y, gone);
    }
  }

  lemma AddedIsTree(m: Mirror, parent: int, child: int)
    requires Good(m) && (parent == -1 || parent in m.cgroups) && child !in m.cgroups && child >= 0
    ensures Tree(Added(m, parent, child).order, Parents(Added(m, parent, child).cgroups))
  {
    var m' := Added(m, parent, child);
    var before, after := Parents(m.cgroups), Parents(m'.cgroups);
    assert child !in m.order;
    forall x | x in after
      ensures ParentFirst(m'.order, after, x)
    {
      if after[x] == -1 {
      } else if x != child {
        assert x in before && before[x] == after[x] && ParentFirst(m.order, before, x);
        PosOfAppend(m.order, x, child);
        PosOfAppend(m.order, after[x], child);
      } else {
        assert parent in before;
        PosOfAppend(m.order, parent, child);
        assert m'.order[Pos(m'.order, child)] == child;
      }
    }
  }

  lemma AddedLeaves(m: Mirror, parent: int, child: int)
    requires Good(m) && (parent == -1 || parent in m.cgroups) && child !in m.cgroups && child >= 0
    ensures Distinct(Added(m, parent, child).leaves)
    ensures forall x :: x in Added(m, parent, child).leaves <==> (x == child || (x in m.leaves && (x != parent || parent == -1)))
  {
    assert child !in m.leaves by { assert child in m.leaves ==> Childless(m, child); }
    assert Distinct(m.leaves + [child]);
    WithoutKeeps(m.leaves + [child], parent);
  }

  lemma AddedChildless(m: Mirror, parent: int, child: int, x: int)
    requires Good(m) && (parent == -1 || parent in m.cgroups) && child !in m.cgroups && child >= 0
    ensures Childless(Added(m, parent, child), x) <==> (x == child || (Childless(m, x) && x != parent))
  {
    var m' := Added(m, parent, child);
    assert forall y :: y in m.cgroups ==> m'.cgroups[y] == m.cgroups[y];
    assert m'.cgroups[child].parent == parent;
    assert forall y :: y in m.cgroups ==> FreshAt(m.cpus, m.cgroups, y);
    if Childless(m', x) && x != child {
      assert forall y :: y in m.cgroups ==> y in m'.cgroups;
    }
  }

  lemma AddedIsGood(m: Mirror, parent: int, child: int)
    requires Good(m) && (parent == -1 || parent in m.cgroups) && child !in m.cgroups && child >= 0
    ensures Good(Added(m, parent, child))
  {
    var m' := Added(m, parent, child);
    AddedIsTree(m, parent, child);
    AddedLeaves(m, parent, child);
    forall x | x in m'.cgroups
      ensures FreshAt(m'.cpus, m'.cgroups, x)
    {
      if x != child {
        assert FreshAt(m.cpus, m.cgroups, x);
      }
    }
    forall x
      ensures x in m'.leaves <==> Childless(m', x)
    {
      AddedChildless(m, parent, child, x);
      assert x in m.leaves <==> Childless(m, x);
      assert -1 !in Parents(m.cgroups);
    }
  }

  ghost predicate SameParents(a: map<int, Cgroup>, b: map<int, Cgroup>) {
    && (forall x :: x in a <==> x in b)
    && forall x :: x in a ==> a[x].parent == b[x].parent
  }

  lemma SameParentsSameTree(order: seq<int>, a: map<int, Cgroup>, b: map<int, Cgroup>)
    requires Tree(order, Parents(a)) && SameParents(a, b)
    ensures Tree(order, Parents(b))
  {
    var parents, parents' := Parents(a), Parents(b);
    assert forall x :: x in parents <==> x in parents';
    forall x | x in parents'
      ensures ParentFirst(order, parents', x)
    {
      assert parents[x] == parents'[x] && ParentFirst(order, parents, x);
    }
  }

  lemma SameParentsSameLeaves(m: Mirror, m': Mirror, x: int)
    requires SameParents(m.cgroups, m'.cgroups)
    ensures Childless(m', x) <==> Childless(m, x)
  {}

  lemma RecutIsFresh(m: Mirror, id: int, cpuset: Range)
    requires Good(m) && id in m.cgroups
    ensures AllFresh(m.cpus, Recut(m, id, cpuset).cgroups)
    ensures SameParents(m.cgroups, Recut(m, id, cpuset).cgroups)
  {
    var m1 := m.(cgroups := m.cgroups[id := m.cgroups[id].(cpuset := cpuset)]);
    var m' := Recut(m, id, cpuset);
    var parents := Parents(m.cgroups);
    assert Parents(m1.cgroups) == parents;
    forall x | x in m'.cgroups
      ensures FreshAt(m'.cpus, m'.cgroups, x)
    {
      assert parents[x] == m'.cgroups[x].parent && ParentFirst(m.order, parents, x);
    }
  }

  lemma RecutIsGood(m: Mirror, id: int, cpuset: Range)
    requires Good(m) && id in m.cgroups
    ensures Good(Recut(m, id, cpuset))
  {
    RecutIsFresh(m, id, cpuset);
    var m' := Recut(m, id, cpuset);
    SameParentsSameTree(m.order, m.cgroups, m'.cgroups);
    forall x
      ensures Childless(m', x) <==> Childless(m, x)
    {
      SameParentsSameLeaves(m, m', x);
    }
  }

  lemma RemovedIsGood(m: Mirror, id: int)
    requires Good(m) && (id in m.cgroups ==> id in m.leaves)
    ensures Good(Removed(m, id))
  {
    if id in m.cgroups {
      var m' := Removed(m, id);
      var before, after := Parents(m.cgroups), Parents(m'.cgroups);
      var parent := m.cgroups[id].parent;
      assert Childless(m, id) && ParentFirst(m.order, before, id);
      WithoutKeeps(m.order, id);
      WithoutKeeps(m.leaves, id);
      forall x | x in after
        ensures ParentFirst(m'.order, after, x)
      {
        assert x in before && before[x] == after[x] && after[x] != id && ParentFirst(m.order, before, x);
        if after[x] != -1 {
          PosOfRemoval(m.order, after[x], x, id);
        }
      }
      forall x | x in m'.cgroups
        ensures FreshAt(m'.cpus, m'.cgroups, x)
      {
        assert FreshAt(m.cpus, m.cgroups, x);
      }
      forall x
        ensures x in m'.leaves <==> Childless(m', x)
      {
        assert x in m.leaves <==> Childless(m, x);
        assert forall y :: y in m'.cgroups ==> y in m.cgroups && m'.cgroups[y] == m.cgroups[y];
        if x != parent && x != id {
          assert Childless(m', x) ==> Childless(m, x) by {
            forall y | y in m.cgroups && Childless(m', x)
              ensures m.cgroups[y].parent != x
            {
              assert y != id ==> y in m'.cgroups;
            }
          }
        }
      }
    }
  }

  lemma PlacedIsGood(m: Mirror, id: int, task: int)
    requires Good(m) && id in m.leaves
    ensures Good(Placed(m, id, task))
  {
    assert forall x :: Childless(Placed(m, id, task), x) <==> Childless(m, x);
  }

  lemma UnplacedIsGood(m: Mirror, task: int)
    requires Good(m)
    ensures Good(Unplaced(m, task))
  {
    assert forall x :: Childless(Unplaced(m, task), x) <==> Childless(m, x);
  }
}
