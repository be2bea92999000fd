/** kstep_topo_set itself (kmod/cpu.c), changing the masks in place, and what any calls of it leave. */
module TopologySet {
  import opened Ring
  import opened Text
  import opened Topology

  /** What the calls read and write. Until the first of them the kernel's table points at masks of its own;
      from then on at rows. siblings and caps are the kernel's, and rebuilds counts its domain rebuilds. */
  datatype Machine = Machine(
    n: nat, inTable: seq<bool>, own: seq<seq<Mask>>,
    k: nat, ours: bool, rows: seq<seq<Mask>>, caps: seq<int>, siblings: seq<Mask>, rebuilds: nat)

  predicate Shape(m: Machine) {
    && 0 < m.n && m.k < m.n && |m.inTable| == LEVELS && Rows(m.own, m.n) && Rows(m.rows, m.n)
    && |m.caps| == m.n && Row(m.siblings, m.n)
  }

  /** The row that the kernel's table points at. */
  function Source(m: Machine, level: nat): seq<Mask>
    requires Shape(m) && level < LEVELS
  {
    if m.ours then m.rows[level] else m.own[level]
  }

  function InitRows(m: Machine, k: nat): (rows: seq<seq<Mask>>)
    requires Shape(m)
    ensures Rows(rows, m.n)
  {
    seq(LEVELS, l requires 0 <= l < LEVELS && Shape(m) => if m.inTable[l] then InitRow(Source(m, l), m.n, k) else m.rows[l])
  }

  predicate SaysCount(entry: string) { |entry| >= 5 && entry[..5] == "CPUS=" }

  function CountOf(p: Parsers, n: nat, entry: string): Option<nat>
    requires SaysCount(entry)
  {
    var x := p.number(entry[5..]);
    if x.Some? && 1 <= x.value <= n - 1 then Some(x.value) else None
  }

  /** The last CPUS=K, if none of them is malformed. */
  function CpuCount(p: Parsers, n: nat, entries: seq<string>, k: nat): Option<nat> {
    if entries == [] then Some(k)
    else if !SaysCount(entries[0]) then CpuCount(p, n, entries[1..], k)
    else
      var x := CountOf(p, n, entries[0]);
      if x.None? then None else CpuCount(p, n, entries[1..], x.value)
  }

  function Fitted(spec: string): string { if |spec| < SPEC_LEN then spec else spec[..SPEC_LEN - 1] }

  function Entries(spec: string): seq<string> { Pieces(Fitted(spec), ';') }

  function Uniform(n: nat): seq<int> { seq(n, _ => SCALE) }

  /** The kernel's capacities once those of the test CPUs have been set. */
  function Committed(was: seq<int>, now: seq<int>, k: nat): seq<int>
    requires |was| == |now|
  {
    seq(|was|, cpu requires 0 <= cpu < |was| == |now| => if 1 <= cpu <= k then now[cpu] else was[cpu])
  }

  /** The masks and the capacities that the entries ask for, up to the first that is wrong. */
  function Interpreted(p: Parsers, m: Machine, k: nat, entries: seq<string>): (r: (Config, Option<string>))
    requires Shape(m) && ForMachine(p, m.n)
    ensures Fits(r.0, m.n)
  {
    var (items, err) := ReadSpec(p, m.n, k, entries);
    ReadSpecIsValid(p, m.n, k, entries);
    (ApplyAll(Config(InitRows(m, k), Uniform(m.n)), m.n, k, items), err)
  }

  /** What kstep_topo_set leaves, and what it says is wrong. */
  function AfterSet(p: Parsers, m: Machine, spec: string): (r: (Machine, Option<string>))
    requires Shape(m) && ForMachine(p, m.n)
    ensures Shape(r.0) && r.0.n == m.n && r.0.inTable == m.inTable
  {
    var count := CpuCount(p, m.n, Entries(spec), m.n - 1);
    if count.None? then (m, Some(BAD_COUNT))
    else
      var k := count.value;
      CpuCountInRange(p, m.n, Entries(spec), m.n - 1);
      var (c, err) := Interpreted(p, m, k, Entries(spec));
      var m' := m.(k := k, ours := true, rows := c.rows);
      if err.Some? then (m', err)
      else
        (m'.(caps := Committed(m.caps, c.caps, k), siblings := c.rows[SMT], rebuilds := m.rebuilds + 1), None)
  }

  lemma {:induction false} CpuCountInRange(p: Parsers, n: nat, entries: seq<string>, k: nat)
    requires n > 0 && k < n
    ensures CpuCount(p, n, entries, k).Some? ==> CpuCount(p, n, entries, k).value < n
    decreases |entries|
  {
    if entries != [] {
      if !SaysCount(entries[0]) {
        CpuCountInRange(p, n, entries[1..], k);
      } else {
        var x := CountOf(p, n, entries[0]);
        if x.Some? {
          CpuCountInRange(p, n, entries[1..], x.value);
        }
      }
    }
  }

  /** The last entry to say CPUS. */
  predicate LastCount(entries: seq<string>, i: nat) {
    i < |entries| && SaysCount(entries[i]) && forall j :: i < j < |entries| ==> !SaysCount(entries[j])
  }

  /** Any malformed CPUS refuses the spec; else the last one counts, wherever it stands. */
  lemma {:induction false} CpuCountMeans(p: Parsers, n: nat, entries: seq<string>, k: nat)
    ensures CpuCount(p, n, entries, k).Some? <==> forall i :: 0 <= i < |entries| && SaysCount(entries[i]) ==> CountOf(p, n, entries[i]).Some?
    ensures CpuCount(p, n, entries, k).Some? ==> forall i: nat :: LastCount(entries, i) ==> CpuCount(p, n, entries, k) == CountOf(p, n, entries[i])
    ensures (forall i :: 0 <= i < |entries| ==> !SaysCount(entries[i])) ==> CpuCount(p, n, entries, k) == Some(k)
    decreases |entries|
  {
    if entries != [] {
      var rest, first := entries[1..], entries[0];
      assert forall i :: 1 <= i < |entries| ==> entries[i] == rest[i - 1];
      var k' := if SaysCount(first) && CountOf(p, n, first).Some? then CountOf(p, n, first).value else k;
      CpuCountMeans(p, n, rest, k');
      forall i: nat | LastCount(entries, i)
        ensures i > 0 ==> LastCount(rest, i - 1)
      {}
    }
  }

  // ---- any calls keep every level a partition ----

  ghost predicate Good(m: Machine) {
    && Shape(m)
    && forall l :: 0 <= l < LEVELS && m.inTable[l] ==>
         Partition(Source(m, l), m.n) && (m.ours ==> GoodRow(m.rows[l], m.n, m.k))
  }

  /** Accepted, refused or refused halfway, a call leaves a partition at every level, with CPU 0 and every
      spare CPU alone wherever the kernel's table points at our masks. */
  lemma SetKeepsGood(p: Parsers, m: Machine, spec: string)
    requires Good(m) && ForMachine(p, m.n)
    ensures Good(AfterSet(p, m, spec).0)
    ensures m.ours || AfterSet(p, m, spec).1 != Some(BAD_COUNT) ==> AfterSet(p, m, spec).0.ours
  {
    var count := CpuCount(p, m.n, Entries(spec), m.n - 1);
    if count.Some? {
      var k := count.value;
      var items, rows := ReadSpec(p, m.n, k, Entries(spec)).0, InitRows(m, k);
      ReadSpecIsValid(p, m.n, k, Entries(spec));
      forall l | 0 <= l < LEVELS && m.inTable[l]
        ensures GoodRow(rows[l], m.n, k)
      {
        InitIsGood(Source(m, l), m.n, k);
      }
      ApplyAllKeepsGood(Config(rows, Uniform(m.n)), m.inTable, m.n, k, items);
    }
  }

  function AfterSets(p: Parsers, m: Machine, specs: seq<string>): (r: Machine)
    requires Shape(m) && ForMachine(p, m.n)
    ensures Shape(r) && r.n == m.n && r.inTable == m.inTable
    decreases |specs|
  {
    if specs == [] then m else AfterSet(p, AfterSets(p, m, specs[..|specs| - 1]), specs[|specs| - 1]).0
  }

  lemma {:induction false} SetsKeepGood(p: Parsers, m: Machine, specs: seq<string>)
    requires Good(m) && ForMachine(p, m.n)
    ensures Good(AfterSets(p, m, specs))
    decreases |specs|
  {
    if specs != [] {
      SetsKeepGood(p, m, specs[..|specs| - 1]);
      SetKeepsGood(p, AfterSets(p, m, specs[..|specs| - 1]), specs[|specs| - 1]);
    }
  }

  /** A refused spec changes nothing that the kernel has already read, though it may change the test CPUs and
      the masks that the next rebuild will read. */
  lemma RefusedChangesNoCapacity(p: Parsers, m: Machine, spec: string)
    requires Shape(m) && ForMachine(p, m.n)
    ensures var (m', err) := AfterSet(p, m, spec);
      if err.Some? then m'.caps == m.caps && m'.siblings == m.siblings && m'.rebuilds == m.rebuilds
      else m'.siblings == m'.rows[SMT] && m'.rebuilds == m.rebuilds + 1
  {}

  // ---- what an accepted spec means ----

  /** One test CPU's mask at one level. */
  lemma AcceptedMasks(p: Parsers, m: Machine, spec: string, level: nat, cpu: nat)
    requires Shape(m) && ForMachine(p, m.n) && AfterSet(p, m, spec).1.None?
    requires level < LEVELS && m.inTable[level] && 1 <= cpu <= AfterSet(p, m, spec).0.k
    ensures var m' := AfterSet(p, m, spec).0;
      var items := ReadSpec(p, m.n, m'.k, Entries(spec)).0;
      && ItemsFit(items, m.n)
      && (!Named(items, level) ==> m'.rows[level][cpu] == And(Source(m, level)[cpu], Tests(m.n, m'.k)))
      && (forall i: nat :: LastFor(items, level, i) ==> GroupedAs(items[i].groups, m.n, cpu, m'.rows[level][cpu]))
  {
    var k := AfterSet(p, m, spec).0.k;
    var items, c := ReadSpec(p, m.n, k, Entries(spec)).0, Config(InitRows(m, k), Uniform(m.n));
    ReadSpecIsValid(p, m.n, k, Entries(spec));
    if !Named(items, level) {
      UnnamedKeeps(c, m.n, k, items, level);
    }
    forall i: nat | LastFor(items, level, i)
      ensures GroupedAs(items[i].groups, m.n, cpu, ApplyAll(c, m.n, k, items).rows[level][cpu])
    {
      LastOccurrenceWins(c, m.n, k, items, level, cpu, i);
    }
  }

  /** One test CPU's capacity. */
  lemma AcceptedCapacity(p: Parsers, m: Machine, spec: string, cpu: nat)
    requires Shape(m) && ForMachine(p, m.n) && AfterSet(p, m, spec).1.None? && 1 <= cpu <= AfterSet(p, m, spec).0.k
    ensures var m' := AfterSet(p, m, spec).0;
      var items := ReadSpec(p, m.n, m'.k, Entries(spec)).0;
      && (!Scaled(items, cpu) ==> m'.caps[cpu] == SCALE)
      && (forall i: nat, scale :: LastScale(items, cpu, i, scale) ==> m'.caps[cpu] == scale)
  {
    var k := AfterSet(p, m, spec).0.k;
    var items, c := ReadSpec(p, m.n, k, Entries(spec)).0, Config(InitRows(m, k), Uniform(m.n));
    ReadSpecIsValid(p, m.n, k, Entries(spec));
    if !Scaled(items, cpu) {
      UnscaledKeeps(c, m.n, k, items, cpu);
    }
    forall i: nat, scale | LastScale(items, cpu, i, scale)
      ensures ApplyAll(c, m.n, k, items).caps[cpu] == scale
    {
      LastScaleWins(c, m.n, k, items, cpu, i, scale);
    }
  }

  /** An accepted spec names test CPUs only: one that puts CPU 0 in a group, even by itself, is refused. */
  lemma AcceptedNamesTestCpus(p: Parsers, m: Machine, spec: string, i: nat, g: nat)
    requires Shape(m) && ForMachine(p, m.n) && AfterSet(p, m, spec).1.None?
    requires var items := ReadSpec(p, m.n, AfterSet(p, m, spec).0.k, Entries(spec)).0;
      i < |items| && !items[i].Nothing? && g < |items[i].groups|
    ensures var k := AfterSet(p, m, spec).0.k;
      var group := ReadSpec(p, m.n, k, Entries(spec)).0[i].groups[g].0;
      |group| == m.n && !group[0] && TestCpus(group, k)
  {
    var k := AfterSet(p, m, spec).0.k;
    var items := ReadSpec(p, m.n, k, Entries(spec)).0;
    ReadSpecIsValid(p, m.n, k, Entries(spec));
    assert ValidItem(items[i], m.n, k);
    ValidGroupsApart(items[i].groups, m.n, k, One(m.n, -1));
  }

  // ---- what the kernel has read after any calls ----

  /** Whether a spec is accepted is a matter of its text alone. */
  predicate Accepts(p: Parsers, n: nat, spec: string)
    requires ForMachine(p, n) && n > 0
  {
    var count := CpuCount(p, n, Entries(spec), n - 1);
    count.Some? && ReadSpec(p, n, count.value, Entries(spec)).1.None?
  }

  /** The spec is accepted with the CPU among its test CPUs. */
  predicate Sets(p: Parsers, n: nat, spec: string, cpu: nat)
    requires ForMachine(p, n) && n > 0
  {
    Accepts(p, n, spec) && 1 <= cpu <= CpuCount(p, n, Entries(spec), n - 1).value
  }

  /** The capacity that a spec means for a CPU: the last scale to name it, or 1024. */
  ghost predicate Means(p: Parsers, n: nat, spec: string, cpu: nat, capacity: int)
    requires ForMachine(p, n) && n > 0 && Sets(p, n, spec, cpu)
  {
    var items := ReadSpec(p, n, CpuCount(p, n, Entries(spec), n - 1).value, Entries(spec)).0;
    && (!Scaled(items, cpu) ==> capacity == SCALE)
    && forall i: nat, scale :: LastScale(items, cpu, i, scale) ==> capacity == scale
  }

  /** What calls mean for a CPU: the last of them to be accepted with it decides, or the machine. */
  ghost predicate CallsMean(p: Parsers, m: Machine, specs: seq<string>, cpu: nat, capacity: int)
    requires Shape(m) && ForMachine(p, m.n) && cpu < m.n
    decreases |specs|
  {
    if specs == [] then capacity == m.caps[cpu]
    else if Sets(p, m.n, specs[|specs| - 1], cpu) then Means(p, m.n, specs[|specs| - 1], cpu, capacity)
    else CallsMean(p, m, specs[..|specs| - 1], cpu, capacity)
  }

  function AcceptedOf(p: Parsers, n: nat, specs: seq<string>): nat
    requires ForMachine(p, n) && n > 0
    decreases |specs|
  {
    if specs == [] then 0
    else AcceptedOf(p, n, specs[..|specs| - 1]) + (if Accepts(p, n, specs[|specs| - 1]) then 1 else 0)
  }

  lemma SetMeans(p: Parsers, m: Machine, spec: string, cpu: nat)
    requires Shape(m) && ForMachine(p, m.n) && cpu < m.n
    ensures var m' := AfterSet(p, m, spec).0;
      && (AfterSet(p, m, spec).1.None? <==> Accepts(p, m.n, spec))
      && m'.rebuilds == m.rebuilds + (if Accepts(p, m.n, spec) then 1 else 0)
      && (if Sets(p, m.n, spec, cpu) then Means(p, m.n, spec, cpu, m'.caps[cpu]) else m'.caps[cpu] == m.caps[cpu])
  {
    if Sets(p, m.n, spec, cpu) {
      AcceptedCapacity(p, m, spec, cpu);
    }
  }

  /** After any calls, accepted or refused, each CPU's capacity is what the last accepted one to test it meant,
      and there have been as many rebuilds as accepted ones: a refused call leaves no trace in either, also not
      through a later accepted one. */
  lemma {:induction false} CapacityAfterCalls(p: Parsers, m: Machine, specs: seq<string>, cpu: nat)
    requires Shape(m) && ForMachine(p, m.n) && cpu < m.n
    ensures CallsMean(p, m, specs, cpu, AfterSets(p, m, specs).caps[cpu])
    ensures AfterSets(p, m, specs).rebuilds == m.rebuilds + AcceptedOf(p, m.n, specs)
    decreases |specs|
  {
    if specs != [] {
      var before := specs[..|specs| - 1];
      CapacityAfterCalls(p, m, before, cpu);
      SetMeans(p, AfterSets(p, m, before), specs[|specs| - 1], cpu);
    }
  }

  // ---- when a level not named keeps the machine's own ----

  /** The last item to name the level puts a and b into one group. */
  predicate Together(items: seq<Item>, level: nat, a: nat, b: nat) {
    exists i :: 0 <= i < |items| && LastFor(items, level, i) && InOneGroup(items[i].groups, a, b)
  }

  /** Whether a call leaves a and b together at the level, as its text says it, where they were before or not:
      its last item for the level decides, or else it parts them unless both are its test CPUs. A malformed
      CPUS changes nothing; what is wrong later on leaves what was read before it. */
  predicate SharesNext(p: Parsers, n: nat, spec: string, level: nat, a: nat, b: nat, before: bool)
    requires ForMachine(p, n)
  {
    var count := if n == 0 then None else CpuCount(p, n, Entries(spec), n - 1);
    if count.None? then before
    else
      var items := ReadSpec(p, n, count.value, Entries(spec)).0;
      if Named(items, level) then Together(items, level, a, b) else a <= count.value && b <= count.value && before
  }

  /** The same for one call after another, on a machine whose topology is its own. */
  predicate Shares(p: Parsers, m: Machine, specs: seq<string>, level: nat, a: nat, b: nat)
    requires Shape(m) && ForMachine(p, m.n) && level < LEVELS && 1 <= a < m.n && 1 <= b < m.n
    decreases |specs|
  {
    if specs == [] then m.own[level][a][b]
    else SharesNext(p, m.n, specs[|specs| - 1], level, a, b, Shares(p, m, specs[..|specs| - 1], level, a, b))
  }

  lemma CutBit(row: seq<Mask>, n: nat, k: nat, a: nat, b: nat)
    requires Row(row, n) && a < n && b < n
    ensures InitRow(row, n, k)[a][b] == if 1 <= a <= k then row[a][b] && 1 <= b <= k else a == b
  {}

  lemma LastOf(items: seq<Item>, level: nat) returns (i: nat)
    requires Named(items, level)
    ensures LastFor(items, level, i)
  {
    var m := |items| - 1;
    if items[m].Masks? && items[m].level == level {
      i := m;
    } else {
      var j :| 0 <= j < |items| && items[j].Masks? && items[j].level == level;
      assert items[..m][j] == items[j];
      i := LastOf(items[..m], level);
    }
  }

  /** The test CPUs, and the items read, of a call that gets past its CPUS. */
  ghost predicate Reads(p: Parsers, m: Machine, spec: string, k: nat, items: seq<Item>)
    requires Shape(m) && ForMachine(p, m.n)
  {
    CpuCount(p, m.n, Entries(spec), m.n - 1) == Some(k) && items == ReadSpec(p, m.n, k, Entries(spec)).0
  }

  lemma LeavesItems(p: Parsers, m: Machine, spec: string, k: nat, items: seq<Item>)
    requires Shape(m) && ForMachine(p, m.n) && Reads(p, m, spec, k, items)
    ensures ItemsFit(items, m.n) && ValidItems(items, m.n, k)
    ensures AfterSet(p, m, spec).0.ours && AfterSet(p, m, spec).0.k == k
    ensures AfterSet(p, m, spec).0.rows == ApplyAll(Config(InitRows(m, k), Uniform(m.n)), m.n, k, items).rows
  {
    ReadSpecIsValid(p, m.n, k, Entries(spec));
  }

  /** What a call that names the level leaves there. */
  lemma NamedShares(p: Parsers, m: Machine, spec: string, level: nat, a: nat, b: nat, k: nat, items: seq<Item>)
    requires Good(m) && ForMachine(p, m.n) && level < LEVELS && m.inTable[level] && 1 <= a < m.n && 1 <= b < m.n && a != b
    requires Reads(p, m, spec, k, items) && Named(items, level)
    ensures AfterSet(p, m, spec).0.rows[level][a][b] <==> Together(items, level, a, b)
  {
    LeavesItems(p, m, spec, k, items);
    SetKeepsGood(p, m, spec);
    var row := AfterSet(p, m, spec).0.rows[level];
    var i := LastOf(items, level);
    var groups := items[i].groups;
    OnlyThatOne(items, level, i, a, b);
    assert ValidItem(items[i], m.n, k);
    ValidGroupsApart(groups, m.n, k, One(m.n, -1));
    if a <= k {
      LastOccurrenceWins(Config(InitRows(m, k), Uniform(m.n)), m.n, k, items, level, a, i);
      GroupedTogether(groups, m.n, a, b, row[a]);
    } else {
      assert row[a] == One(m.n, a);
      assert forall g :: 0 <= g < |groups| ==> !groups[g].0[a];
    }
  }

  lemma OnlyThatOne(items: seq<Item>, level: nat, i: nat, a: nat, b: nat)
    requires LastFor(items, level, i)
    ensures Together(items, level, a, b) <==> InOneGroup(items[i].groups, a, b)
  {
    forall j: nat | LastFor(items, level, j)
      ensures j == i
    {}
  }

  predicate InOneGroup(groups: seq<Group>, a: nat, b: nat) {
    exists g :: 0 <= g < |groups| && a < |groups[g].0| && b < |groups[g].0| && groups[g].0[a] && groups[g].0[b]
  }

  lemma GroupedTogether(groups: seq<Group>, n: nat, a: nat, b: nat, mask: Mask)
    requires GroupsFit(groups, n) && GroupsApart(groups) && a < n && b < n && a != b && GroupedAs(groups, n, a, mask)
    ensures |mask| == n && (mask[b] <==> InOneGroup(groups, a, b))
  {
    if Among(groups, a) {
      var i :| 0 <= i < |groups| && groups[i].0[a] && mask == groups[i].0;
      forall g | 0 <= g < |groups| && groups[g].0[a]
        ensures g == i
      {}
    } else {
      assert forall g :: 0 <= g < |groups| ==> !groups[g].0[a];
    }
  }

  lemma UnnamedLeaves(p: Parsers, m: Machine, spec: string, level: nat, k: nat, items: seq<Item>)
    requires Shape(m) && ForMachine(p, m.n) && level < LEVELS && m.inTable[level]
    requires Reads(p, m, spec, k, items) && !Named(items, level)
    ensures var m' := AfterSet(p, m, spec).0;
      m'.ours && m'.rows[level] == InitRow(Source(m, level), m.n, k)
  {
    LeavesItems(p, m, spec, k, items);
    UnnamedKeeps(Config(InitRows(m, k), Uniform(m.n)), m.n, k, items, level);
  }

  lemma OneCallShares(p: Parsers, m: Machine, spec: string, level: nat, a: nat, b: nat)
    requires Good(m) && ForMachine(p, m.n) && level < LEVELS && m.inTable[level] && 1 <= a < m.n && 1 <= b < m.n && a != b
    ensures Source(AfterSet(p, m, spec).0, level)[a][b] == SharesNext(p, m.n, spec, level, a, b, Source(m, level)[a][b])
  {
    var count := CpuCount(p, m.n, Entries(spec), m.n - 1);
    if count.Some? {
      var k := count.value;
      var items := ReadSpec(p, m.n, k, Entries(spec)).0;
      LeavesItems(p, m, spec, k, items);
      if Named(items, level) {
        NamedShares(p, m, spec, level, a, b, k, items);
      } else {
        UnnamedLeaves(p, m, spec, level, k, items);
        CutBit(Source(m, level), m.n, k, a, b);
      }
    }
  }

  /** The kernel's masks after any calls are what the calls' texts say. */
  lemma {:induction false} SharesIs(p: Parsers, m: Machine, specs: seq<string>, level: nat, a: nat, b: nat)
    requires Good(m) && !m.ours && ForMachine(p, m.n) && level < LEVELS && m.inTable[level]
    requires 1 <= a < m.n && 1 <= b < m.n && a != b
    ensures Source(AfterSets(p, m, specs), level)[a][b] == Shares(p, m, specs, level, a, b)
    decreases |specs|
  {
    if specs != [] {
      var before := specs[..|specs| - 1];
      SharesIs(p, m, before, level, a, b);
      SetsKeepGood(p, m, before);
      OneCallShares(p, AfterSets(p, m, before), specs[|specs| - 1], level, a, b);
    }
  }

  lemma {:induction false} SetsKeepOwn(p: Parsers, m: Machine, specs: seq<string>)
    requires Shape(m) && ForMachine(p, m.n)
    ensures AfterSets(p, m, specs).own == m.own
    decreases |specs|
  {
    if specs != [] {
      SetsKeepOwn(p, m, specs[..|specs| - 1]);
    }
  }

  lemma CutsAgree(x: seq<Mask>, y: seq<Mask>, n: nat, k: nat)
    requires Partition(x, n) && Partition(y, n)
    ensures InitRow(x, n, k) == InitRow(y, n, k) <==> forall a, b :: 1 <= a <= k && 1 <= b <= k && a != b && a < n && b < n ==> x[a][b] == y[a][b]
  {
    var cx, cy := InitRow(x, n, k), InitRow(y, n, k);
    forall a, b | 0 <= a < n && 0 <= b < n
      ensures cx[a][b] == if 1 <= a <= k then x[a][b] && 1 <= b <= k else a == b
      ensures cy[a][b] == if 1 <= a <= k then y[a][b] && 1 <= b <= k else a == b
    {
      CutBit(x, n, k, a, b);
      CutBit(y, n, k, a, b);
    }
    if forall a, b :: 1 <= a <= k && 1 <= b <= k && a != b && a < n && b < n ==> x[a][b] == y[a][b] {
      forall a | 0 <= a < n
        ensures cx[a] == cy[a]
      {
        forall b | 0 <= b < n
          ensures cx[a][b] == cy[a][b]
        {}
      }
    }
  }

  /** A level that an accepted spec does not name keeps the machine's own, cut to the test CPUs, if and only if
      the calls before it have left every two of the spec's test CPUs together there exactly where the machine
      had them together. */
  lemma UnnamedIsTheMachinesOwnExactly(p: Parsers, m: Machine, specs: seq<string>, spec: string, level: nat)
    requires Good(m) && !m.ours && ForMachine(p, m.n) && level < LEVELS && m.inTable[level]
    requires var (m', err) := AfterSet(p, AfterSets(p, m, specs), spec);
      err.None? && !Named(ReadSpec(p, m.n, m'.k, Entries(spec)).0, level)
    ensures var m' := AfterSet(p, AfterSets(p, m, specs), spec).0;
      m'.rows[level] == InitRow(m.own[level], m.n, m'.k)
      <==> forall a: nat, b: nat :: 1 <= a <= m'.k && 1 <= b <= m'.k && a != b ==>
             (Shares(p, m, specs, level, a, b) <==> m.own[level][a][b])
  {
    var m1 := AfterSets(p, m, specs);
    var m' := AfterSet(p, m1, spec).0;
    SetsKeepGood(p, m, specs);
    SetsKeepOwn(p, m, specs);
    UnnamedLeaves(p, m1, spec, level, m'.k, ReadSpec(p, m.n, m'.k, Entries(spec)).0);
    CutsAgree(Source(m1, level), m.own[level], m.n, m'.k);
    forall a: nat, b: nat | 1 <= a <= m'.k && 1 <= b <= m'.k && a != b
      ensures Shares(p, m, specs, level, a, b) == Source(m1, level)[a][b]
    {
      SharesIs(p, m, specs, level, a, b);
    }
  }

  /** The spec, as far as it is read, does not name the level. */
  predicate Unnaming(p: Parsers, n: nat, spec: string, level: nat)
    requires ForMachine(p, n) && n > 0
  {
    var count := CpuCount(p, n, Entries(spec), n - 1);
    count.Some? ==> !Named(ReadSpec(p, n, count.value, Entries(spec)).0, level)
  }

  /** The spec makes the CPU a spare one. */
  predicate Spares(p: Parsers, n: nat, spec: string, a: nat)
    requires n > 0
  {
    var count := CpuCount(p, n, Entries(spec), n - 1);
    count.Some? && count.value < a
  }

  predicate NeverNamed(p: Parsers, n: nat, specs: seq<string>, level: nat)
    requires ForMachine(p, n) && n > 0
  {
    forall j :: 0 <= j < |specs| ==> Unnaming(p, n, specs[j], level)
  }

  predicate WasSpare(p: Parsers, n: nat, specs: seq<string>, a: nat)
    requires n > 0
  {
    exists j :: 0 <= j < |specs| && Spares(p, n, specs[j], a)
  }

  lemma UnnamingShares(p: Parsers, n: nat, spec: string, level: nat, a: nat, b: nat, before: bool)
    requires ForMachine(p, n) && n > 0 && Unnaming(p, n, spec, level)
    ensures SharesNext(p, n, spec, level, a, b, before) <==> before && !Spares(p, n, spec, a) && !Spares(p, n, spec, b)
  {}

  lemma SpareSince(p: Parsers, n: nat, specs: seq<string>, a: nat)
    requires n > 0 && specs != []
    ensures WasSpare(p, n, specs, a) <==> WasSpare(p, n, specs[..|specs| - 1], a) || Spares(p, n, specs[|specs| - 1], a)
  {
    var before := specs[..|specs| - 1];
    if WasSpare(p, n, before, a) {
      var j :| 0 <= j < |before| && Spares(p, n, before[j], a);
      assert specs[j] == before[j];
    }
    if j :| 0 <= j < |before| && Spares(p, n, specs[j], a) {
      assert Spares(p, n, before[j], a);
    }
  }

  /** Where no call named the level, two CPUs are together after the calls exactly if the machine has them
      together and no call made either of them spare. */
  lemma {:induction false} UnnamedPartsTheSpare(p: Parsers, m: Machine, specs: seq<string>, level: nat, a: nat, b: nat)
    requires Shape(m) && ForMachine(p, m.n) && level < LEVELS && 1 <= a < m.n && 1 <= b < m.n && NeverNamed(p, m.n, specs, level)
    ensures Shares(p, m, specs, level, a, b) <==> m.own[level][a][b] && !WasSpare(p, m.n, specs, a) && !WasSpare(p, m.n, specs, b)
    decreases |specs|
  {
    if specs != [] {
      var before, last := specs[..|specs| - 1], specs[|specs| - 1];
      UnnamedPartsTheSpare(p, m, before, level, a, b);
      UnnamingShares(p, m.n, last, level, a, b, Shares(p, m, before, level, a, b));
      SpareSince(p, m.n, specs, a);
      SpareSince(p, m.n, specs, b);
    }
  }

  lemma OnePiece(s: string, c: char)
    requires c !in s
    ensures Pieces(s, c) == [s]
  {
    IndexAfter(s, c, "");
  }

  const PAIR: string := "1-2"
  const PAIRED: string := "CLS" + ['='] + PAIR
  const BOTH: Mask := [false, true, true]

  lemma PairedReads(p: Parsers)
    requires ForMachine(p, 3) && p.cpulist(PAIR) == Some(BOTH)
    ensures Entries(PAIRED) == [PAIRED] && CpuCount(p, 3, [PAIRED], 2) == Some(2)
    ensures ReadSpec(p, 3, 2, [PAIRED]).0 == [Masks(1, [(BOTH, 0)])]
  {
    assert PAIRED == "CLS=1-2";
    OnePiece(PAIRED, ';');
    assert PAIRED[..5] == "CLS=1";
    assert PAIRED[..5][1] != "CPUS="[1];
    assert [PAIRED][1..] == [];
    IndexAfter("CLS", '=', PAIR);
    assert PAIRED[..3] == "CLS" && PAIRED[4..] == PAIR;
    OnePiece(PAIR, '|');
    assert BOTH[1] && TestCpus(BOTH, 2) && !Meets(BOTH, One(3, -1));
    assert [PAIR][1..] == [];
    assert ReadGroup(p, 3, 2, false, PAIR, One(3, -1)) == Ok((BOTH, 0));
    assert ReadGroups(p, 3, 2, false, [], Or(One(3, -1), BOTH)) == ([], None);
    assert [(BOTH, 0)] + [] == [(BOTH, 0)];
    assert ReadGroups(p, 3, 2, false, [PAIR], One(3, -1)).0 == [(BOTH, 0)];
  }

  lemma EmptyReads(p: Parsers)
    requires ForMachine(p, 3)
    ensures Entries("") == [""] && CpuCount(p, 3, [""], 2) == Some(2) && ReadSpec(p, 3, 2, [""]).0 == [Nothing]
    ensures ReadSpec(p, 3, 2, [""]).1 == None
  {
    OnePiece("", ';');
    assert [""][1..] == [];
  }

  /** With the same CPUs in both calls: a level paired by the first call and not named by the second stays paired
      on a machine where every CPU is alone. */
  lemma NamingOutlivesItsCall(p: Parsers, m: Machine)
    requires Good(m) && !m.ours && m.n == 3 && m.inTable[1] && m.own[1] == seq(3, i => One(3, i))
    requires ForMachine(p, 3) && p.cpulist(PAIR) == Some(BOTH)
    ensures var (m', err) := AfterSet(p, AfterSets(p, m, [PAIRED]), "");
      err.None? && m'.k == 2 && m'.rows[1] != InitRow(m.own[1], 3, 2)
  {
    PairedReads(p);
    EmptyReads(p);
    var m1 := AfterSets(p, m, [PAIRED]);
    assert [PAIRED][..0] == [];
    assert LastFor([Masks(1, [(BOTH, 0)])], 1, 0) && InOneGroup([(BOTH, 0)], 1, 2) by {
      assert (BOTH, 0).0[1] && (BOTH, 0).0[2];
      assert [(BOTH, 0)][0].0[1];
    }
    assert Named([Masks(1, [(BOTH, 0)])], 1) && Together([Masks(1, [(BOTH, 0)])], 1, 1, 2);
    assert Shares(p, m, [PAIRED], 1, 1, 2);
    assert !m.own[1][1][2];
    UnnamedIsTheMachinesOwnExactly(p, m, [PAIRED], "", 1);
  }
}
