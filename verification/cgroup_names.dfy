/** The names that the old fuzzer's executor builds for its cgroups (docs/archive/old_fuzzer/kmod/handler.c):
    exactly when a name is the cgroup's path, and when two cgroups come to share one. */
module CgroupNames {
  import opened Digits
  import opened Mirror
  import opened MirrorOps
  import opened Executor
  import opened Simulation

  predicate Naturals(chain: seq<int>) { forall i :: 0 <= i < |chain| ==> chain[i] >= 0 }

  lemma {:induction false} ChainIsNatural(e: Tables, id: int, room: nat)
    requires Shape(e)
    ensures Naturals(Chain(e, id, room).1)
    ensures Chain(e, id, room).0 && id != -1 ==> Chain(e, id, room).1 != [] && Chain(e, id, room).1[0] == id
    decreases room
  {
    if id != -1 && Exists(e, id) && room > 0 {
      ChainIsNatural(e, e.parent[id], room - 1);
    }
  }

  /** The path that a cgroup stands at, root first. */
  function PathTo(e: Tables, id: int): string
    requires Shape(e)
  {
    ChainIsNatural(e, id, MAX);
    Path(Chain(e, id, MAX).1)
  }

  /** The name that kstep_build_cgroup_name gives it. */
  function NameOf(e: Tables, id: int): string
    requires Shape(e)
  {
    Cut(PathTo(e, id))
  }

  // ---- short names tell cgroups apart ----

  lemma NoSlash(id: int)
    requires id >= 0
    ensures '/' !in Element(id) && |Element(id)| >= 3
  {
    DecReadsBack(id);
  }

  lemma ElementTells(x: int, y: int)
    requires x >= 0 && y >= 0 && Element(x) == Element(y)
    ensures x == y
  {
    DecReadsBack(x);
    DecReadsBack(y);
    assert Element(x)[2..] == Dec(x) && Element(y)[2..] == Dec(y);
  }

  /** What follows the last slash. */
  lemma LastPart(a: string, x: string, b: string, y: string)
    requires '/' !in x && '/' !in y && a + "/" + x == b + "/" + y
    ensures x == y
  {
    var s := a + "/" + x;
    assert s[|a|] == '/' && s[|b|] == '/';
    assert forall i :: |a| < i < |s| ==> s[i] == x[i - |a| - 1];
    assert forall i :: |b| < i < |s| ==> s[i] == y[i - |b| - 1];
    assert s[|a| + 1..] == x && s[|b| + 1..] == y;
  }

  lemma SlashMeansMore(c: seq<int>)
    requires Naturals(c) && c != []
    ensures '/' in Path(c) <==> |c| > 1
  {
    NoSlash(c[0]);
    assert |c| > 1 ==> Path(c)[|Path(c[1..])|] == '/';
  }

  lemma PathTells(c: seq<int>, d: seq<int>)
    requires Naturals(c) && Naturals(d) && c != [] && d != [] && Path(c) == Path(d)
    ensures c[0] == d[0]
  {
    NoSlash(c[0]);
    NoSlash(d[0]);
    SlashMeansMore(c);
    SlashMeansMore(d);
    if |c| > 1 {
      LastPart(Path(c[1..]), Element(c[0]), Path(d[1..]), Element(d[0]));
    }
    ElementTells(c[0], d[0]);
  }

  /** A name is the cgroup's path exactly when the path fits; and cgroups with fitting paths have different names. */
  lemma ShortNamesTell(e: Tables, x: int, y: int)
    requires Shape(e) && Exists(e, x) && Exists(e, y) && NameOk(e, x) && NameOk(e, y)
    ensures NameOf(e, x) == PathTo(e, x) <==> |PathTo(e, x)| < NAME_LEN
    ensures |PathTo(e, x)| < NAME_LEN && |PathTo(e, y)| < NAME_LEN && NameOf(e, x) == NameOf(e, y) ==> x == y
  {
    ChainIsNatural(e, x, MAX);
    ChainIsNatural(e, y, MAX);
    if PathTo(e, x) == PathTo(e, y) {
      PathTells(Chain(e, x, MAX).1, Chain(e, y, MAX).1);
    }
  }

  // ---- long ones do not ----

  lemma {:induction false} MoreRoom(e: Tables, id: int, room: nat, more: nat)
    requires Shape(e) && room <= more && Chain(e, id, room).0
    ensures Chain(e, id, more) == Chain(e, id, room)
    decreases room
  {
    if id != -1 {
      MoreRoom(e, e.parent[id], room - 1, more - 1);
    }
  }

  lemma ChildPath(e: Tables, child: int)
    requires Shape(e) && Exists(e, child) && NameOk(e, child) && e.parent[child] != -1
    ensures NameOk(e, e.parent[child]) && Exists(e, e.parent[child])
    ensures PathTo(e, child) == PathTo(e, e.parent[child]) + "/" + Element(child)
  {
    var parent := e.parent[child];
    MoreRoom(e, parent, MAX - 1, MAX);
    ChainIsNatural(e, parent, MAX);
    var up := Chain(e, parent, MAX).1;
    assert Chain(e, child, MAX).1 == [child] + up;
    assert ([child] + up)[1..] == up;
  }

  /** A cgroup has the name of the cgroup it is in exactly when that one's path leaves no room for a slash. */
  lemma ChildSharesExactly(e: Tables, child: int)
    requires Shape(e) && Exists(e, child) && NameOk(e, child) && e.parent[child] != -1
    ensures NameOf(e, child) == NameOf(e, e.parent[child]) <==> |PathTo(e, e.parent[child])| >= NAME_LEN - 1
  {
    ChildPath(e, child);
    var p, c := PathTo(e, e.parent[child]), PathTo(e, child);
    if |p| >= NAME_LEN - 1 {
      assert c[..NAME_LEN - 1] == p[..NAME_LEN - 1];
      assert |p| == NAME_LEN - 1 ==> p[..NAME_LEN - 1] == p;
    } else {
      assert |Cut(c)| > |p|;
    }
  }

  /** The generator offers such a child and the executor accepts it, with the simulation none the wiser. */
  lemma OfferedChildMayShare(m: Mirror, e: Tables, parent: int, child: int)
    requires Good(m) && Shape(e) && Sim(m, e) && Offered(m, e, CgCreate(parent, child)) && parent != -1
    ensures var (e', ok) := Create(e, parent, child);
      && ok && Sim(Added(m, parent, child), e')
      && (NameOf(e', child) == NameOf(e', parent) <==> |PathTo(e', parent)| >= NAME_LEN - 1)
  {
    CreateSimulates(m, e, parent, child);
    var e' := Create(e, parent, child).0;
    var e1 := e.(exist := e.exist[child := true], parent := e.parent[child := parent]);
    assert e'.exist == e1.exist && e'.parent == e1.parent;
    SameChain(e1, e', child, MAX);
    ChildSharesExactly(e', child);
  }

  lemma {:induction false} SameChain(e: Tables, e': Tables, id: int, room: nat)
    requires Shape(e) && Shape(e') && e.exist == e'.exist && e.parent == e'.parent
    ensures Chain(e, id, room) == Chain(e', id, room)
    decreases room
  {
    if id != -1 && Exists(e, id) && room > 0 {
      SameChain(e, e', e.parent[id], room - 1);
    }
  }

  // ---- and there are such cgroups ----

  /** The first k cgroups, each in the one before. */
  function Deep(k: nat): (e: Tables)
    ensures Shape(e)
  {
    Tables(seq(MAX, i => i < k), seq(MAX, i => if i < k then i - 1 else -1), seq(MAX, _ => false), seq(MAX, _ => -1))
  }

  lemma {:induction false} DeepChain(k: nat, id: int, room: nat)
    requires -1 <= id < k <= MAX && id < room
    ensures Chain(Deep(k), id, room).0 && |Chain(Deep(k), id, room).1| == id + 1
    decreases room
  {
    if id >= 0 {
      DeepChain(k, id - 1, room - 1);
    }
  }

  lemma DeepGrows(k: nat)
    requires k < MAX
    ensures Create(Deep(k), k - 1, k).1
    ensures Create(Deep(k), k - 1, k).0.exist == Deep(k + 1).exist && Create(Deep(k), k - 1, k).0.parent == Deep(k + 1).parent
    ensures Create(Deep(k), k - 1, k).0.live == Deep(k + 1).live && Create(Deep(k), k - 1, k).0.cgroup == Deep(k + 1).cgroup
  {
    var e, e' := Deep(k), Deep(k + 1);
    var e1 := e.(exist := e.exist[k := true], parent := e.parent[k := k - 1]);
    assert e1.exist == e'.exist && e1.parent == e'.parent;
    DeepChain(k + 1, k, MAX);
    SameChain(e', e1, k, MAX);
    assert k > 0 ==> AllToRoot(e1, k - 1).cgroup == e'.cgroup;
  }

  lemma {:induction false} PathIsLong(chain: seq<int>)
    requires Naturals(chain) && chain != []
    ensures |Path(chain)| >= 4 * |chain| - 1
    decreases |chain|
  {
    NoSlash(chain[0]);
    if |chain| > 1 {
      PathIsLong(chain[1..]);
    }
  }

  /** From empty tables the executor accepts each next cgroup inside the last; the 64th and the 65th share a name. */
  lemma DeepNamesClash()
    ensures forall id :: !Exists(Deep(0), id)
    ensures forall k: nat :: k < MAX ==> Create(Deep(k), k - 1, k) == (Deep(k + 1), true)
    ensures NameOf(Deep(65), 63) == NameOf(Deep(65), 64)
  {
    forall k: nat | k < MAX
      ensures Create(Deep(k), k - 1, k) == (Deep(k + 1), true)
    {
      DeepGrows(k);
      var r := Create(Deep(k), k - 1, k);
      assert r.0 == Tables(r.0.exist, r.0.parent, r.0.live, r.0.cgroup);
    }
    DeepChain(65, 63, MAX);
    DeepChain(65, 64, MAX);
    ChainIsNatural(Deep(65), 63, MAX);
    PathIsLong(Chain(Deep(65), 63, MAX).1);
    ChildSharesExactly(Deep(65), 64);
  }
}
