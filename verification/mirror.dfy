/** The old fuzzer's generator state (docs/archive/old_fuzzer/scripts/gen_input_state.py): its mirror of
    the executor's cgroups, with cached effective cpusets, a leaf index and a task map. */
module Mirror {
  import opened Lists

  /** A CPU range, first and last. */
  type Range = (int, int)

  datatype Cgroup = Cgroup(parent: int, cpuset: Range, effective: Range)

  /** order is the dict's own: keys as first inserted, which is what iterating over it gives. */
  datatype Mirror = Mirror(cpus: nat, order: seq<int>, cgroups: map<int, Cgroup>, leaves: seq<int>, tasks: map<int, int>)

  // ---- cpusets ----

  function RootCpuset(cpus: nat): Range { if cpus >= 2 then (1, cpus - 1) else (0, 0) }

  predicate Nonempty(r: Range) { r.0 <= r.1 }

  predicate Inside(r: Range, outer: Range) { outer.0 <= r.0 && r.1 <= outer.1 }

  /** What a cgroup may use of what its parent may: all of it when its own cpuset is empty or misses. */
  function Effective(cpuset: Range, parent: Range): (r: Range)
    ensures Nonempty(parent) ==> Nonempty(r) && Inside(r, parent)
  {
    if cpuset.0 > cpuset.1 then parent
    else
      var begin := if cpuset.0 > parent.0 then cpuset.0 else parent.0;
      var end := if cpuset.1 < parent.1 then cpuset.1 else parent.1;
      if begin > end then parent else (begin, end)
  }

  // ---- the tree ----

  function Parents(cgroups: map<int, Cgroup>): map<int, int> { map x | x in cgroups :: cgroups[x].parent }

  /** parents says of each cgroup what the dict says. */
  ghost predicate Agrees(parents: map<int, int>, cgroups: map<int, Cgroup>) {
    && (forall x :: x in parents <==> x in cgroups)
    && forall x :: x in cgroups ==> parents[x] == cgroups[x].parent
  }

  /** The dict's keys, each once, every parent before its children: no cycles. */
  ghost predicate Tree(order: seq<int>, parents: map<int, int>) {
    && Distinct(order)
    && (forall x :: x in order <==> x in parents)
    && -1 !in parents
    && forall x {:trigger ParentFirst(order, parents, x)} :: x in parents ==> ParentFirst(order, parents, x)
  }

  /** x's parent is there and comes before it. */
  predicate ParentFirst(order: seq<int>, parents: map<int, int>, x: int)
    requires x in parents
  {
    parents[x] == -1
    || (parents[x] in parents && parents[x] in order && x in order && Pos(order, parents[x]) < Pos(order, x))
  }

  function ParentEffective(cpus: nat, cgroups: map<int, Cgroup>, parent: int): Range
    requires parent == -1 || parent in cgroups
  {
    if parent == -1 then RootCpuset(cpus) else cgroups[parent].effective
  }

  /** x's cache is what its cpuset and its parent's cache give. */
  predicate Fresh(cpus: nat, cgroups: map<int, Cgroup>, x: int)
    requires x in cgroups && (cgroups[x].parent == -1 || cgroups[x].parent in cgroups)
  {
    cgroups[x].effective == Effective(cgroups[x].cpuset, ParentEffective(cpus, cgroups, cgroups[x].parent))
  }

  predicate FreshAt(cpus: nat, cgroups: map<int, Cgroup>, x: int) {
    x in cgroups && (cgroups[x].parent == -1 || cgroups[x].parent in cgroups) && Fresh(cpus, cgroups, x)
  }

  predicate AllFresh(cpus: nat, cgroups: map<int, Cgroup>) {
    forall x {:trigger FreshAt(cpus, cgroups, x)} :: x in cgroups ==> FreshAt(cpus, cgroups, x)
  }

  /** The cgroups below root, root included. */
  ghost predicate Below(order: seq<int>, parents: map<int, int>, root: int, x: int)
    requires Tree(order, parents) && x in parents
    decreases Pos(order, x)
  {
    assert ParentFirst(order, parents, x);
    x == root || (parents[x] != -1 && Below(order, parents, root, parents[x]))
  }

  lemma {:induction false} BelowIsLater(order: seq<int>, parents: map<int, int>, root: int, x: int)
    requires Tree(order, parents) && root in parents && x in parents && Below(order, parents, root, x)
    ensures Pos(order, root) <= Pos(order, x)
    decreases Pos(order, x)
  {
    assert ParentFirst(order, parents, x);
    if x != root {
      BelowIsLater(order, parents, root, parents[x]);
    }
  }

  /** Everything below id but id itself is below exactly one child of it. */
  lemma {:induction false} BelowAChild(order: seq<int>, parents: map<int, int>, id: int, x: int) returns (child: int)
    requires Tree(order, parents) && id in parents && x in parents && x != id && Below(order, parents, id, x)
    ensures child in parents && parents[child] == id && Below(order, parents, child, x)
    decreases Pos(order, x)
  {
    assert ParentFirst(order, parents, x);
    if parents[x] == id {
      child := x;
    } else {
      child := BelowAChild(order, parents, id, parents[x]);
    }
  }

  lemma {:induction false} BelowAtMostOneChild(order: seq<int>, parents: map<int, int>, a: int, b: int, x: int)
    requires Tree(order, parents) && a in parents && b in parents && x in parents
    requires parents[a] == parents[b] != -1 && a != b && Below(order, parents, a, x)
    ensures !Below(order, parents, b, x)
    decreases Pos(order, x)
  {
    assert ParentFirst(order, parents, x) && ParentFirst(order, parents, a) && ParentFirst(order, parents, b);
    if x == a {
      if Below(order, parents, b, parents[a]) {
        BelowIsLater(order, parents, b, parents[a]);
      }
    } else if x == b {
      BelowIsLater(order, parents, a, parents[b]);
      assert false;
    } else {
      BelowAtMostOneChild(order, parents, a, b, parents[x]);
    }
  }

  lemma {:induction false} BelowChildIsBelow(order: seq<int>, parents: map<int, int>, id: int, child: int, x: int)
    requires Tree(order, parents) && id in parents && child in parents && x in parents
    requires parents[child] == id && Below(order, parents, child, x)
    ensures Below(order, parents, id, x) && x != id
    decreases Pos(order, x)
  {
    assert ParentFirst(order, parents, x) && ParentFirst(order, parents, child);
    BelowIsLater(order, parents, child, x);
    if x != child {
      BelowChildIsBelow(order, parents, id, child, parents[x]);
    }
  }

  // ---- what holds between operations ----

  predicate Childless(m: Mirror, x: int) { x in m.cgroups && forall y :: y in m.cgroups ==> m.cgroups[y].parent != x }

  ghost predicate Good(m: Mirror) {
    && Tree(m.order, Parents(m.cgroups))
    && AllFresh(m.cpus, m.cgroups)
    && Distinct(m.leaves)
    && (forall x :: x in m.leaves <==> Childless(m, x))
    && (forall t :: t in m.tasks ==> m.tasks[t] in m.leaves)
  }

  /** The definition that the cache stands for. */
  ghost function EffectiveOf(m: Mirror, x: int): Range
    requires Tree(m.order, Parents(m.cgroups)) && x in m.cgroups
    decreases Pos(m.order, x)
  {
    var parents := Parents(m.cgroups);
    assert ParentFirst(m.order, parents, x);
    Effective(m.cgroups[x].cpuset, if parents[x] == -1 then RootCpuset(m.cpus) else EffectiveOf(m, parents[x]))
  }

  /** In a good mirror every cache is its definition, and a nonempty range inside its parent's. */
  lemma {:induction false} CacheIsDefinition(m: Mirror, x: int)
    requires Good(m) && x in m.cgroups
    ensures FreshAt(m.cpus, m.cgroups, x) && m.cgroups[x].effective == EffectiveOf(m, x)
    ensures Nonempty(m.cgroups[x].effective)
    ensures Inside(m.cgroups[x].effective, ParentEffective(m.cpus, m.cgroups, m.cgroups[x].parent))
    decreases Pos(m.order, x)
  {
    var parents := Parents(m.cgroups);
    assert parents[x] == m.cgroups[x].parent && ParentFirst(m.order, parents, x);
    assert FreshAt(m.cpus, m.cgroups, x);
    if parents[x] != -1 {
      CacheIsDefinition(m, parents[x]);
    }
  }

  /** choose_leaf_cgroup never falls back to a cgroup that is not a leaf: the last one made is one. */
  lemma SomeLeaf(m: Mirror)
    requires Good(m) && exists x :: x in m.cgroups
    ensures m.leaves != []
  {
    var parents := Parents(m.cgroups);
    var some :| some in m.cgroups;
    assert some in parents && some in m.order;
    var last := m.order[|m.order| - 1];
    assert last in m.order && last in parents;
    assert Pos(m.order, last) == |m.order| - 1;
    forall y | y in m.cgroups
      ensures m.cgroups[y].parent != last
    {
      assert ParentFirst(m.order, parents, y) && y in m.order;
      assert parents[y] == m.cgroups[y].parent && Pos(m.order, y) <= |m.order| - 1;
    }
    assert Childless(m, last);
  }
}
