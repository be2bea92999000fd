/** The topology spec (kmod/cpu.c): what its text says, what it does to the kernel's per-level CPU masks and
    to the capacities, and that every level stays a partition of the CPUs. */
module Topology {
  import opened Ring
  import opened Text

  /** A cpumask over the online CPUs. */
  type Mask = seq<bool>

  const LEVELS := 5       // SMT, CLS, MC, PKG, NODE
  const SMT := 0
  const SPEC_LEN := 512   // CPU_SPEC_LEN
  const SCALE := 1024     // SCHED_CAPACITY_SCALE

  /** cpulist_parse and kstrtoint. */
  datatype Parsers = Parsers(cpulist: string -> Option<Mask>, number: string -> Option<int>)

  ghost predicate ForMachine(p: Parsers, n: nat) {
    forall s {:trigger p.cpulist(s)} :: p.cpulist(s).Some? ==> |p.cpulist(s).value| == n
  }

  // ---- masks ----

  function One(n: nat, cpu: int): Mask { seq(n, i => i == cpu) }

  function Tests(n: nat, k: nat): Mask { seq(n, i => 1 <= i <= k) }

  function And(a: Mask, b: Mask): Mask
    requires |a| == |b|
  {
    seq(|a|, i requires 0 <= i < |a| == |b| => a[i] && b[i])
  }

  function Or(a: Mask, b: Mask): Mask
    requires |a| == |b|
  {
    seq(|a|, i requires 0 <= i < |a| == |b| => a[i] || b[i])
  }

  predicate Meets(a: Mask, b: Mask)
    requires |a| == |b|
  {
    exists i :: 0 <= i < |a| && a[i] && b[i]
  }

  predicate TestCpus(m: Mask, k: nat) { (exists i :: 0 <= i < |m| && m[i]) && forall i :: 0 <= i < |m| && m[i] ==> 1 <= i <= k }

  /** One level: each CPU's mask. */
  predicate Row(row: seq<Mask>, n: nat) { |row| == n && forall a :: 0 <= a < n ==> |row[a]| == n }

  predicate Partition(row: seq<Mask>, n: nat) {
    && Row(row, n)
    && (forall a :: 0 <= a < n ==> row[a][a])
    && forall a, b :: 0 <= a < n && 0 <= b < n && row[a][b] ==> row[a] == row[b]
  }

  /** CPU 0 and every spare CPU alone. */
  predicate OthersAlone(row: seq<Mask>, n: nat, k: nat)
    requires Row(row, n)
  {
    forall a :: 0 <= a < n && !(1 <= a <= k) ==> row[a] == One(n, a)
  }

  predicate GoodRow(row: seq<Mask>, n: nat, k: nat) { Partition(row, n) && OthersAlone(row, n, k) }

  // ---- what a call does to one level ----

  function InitRow(row: seq<Mask>, n: nat, k: nat): (r: seq<Mask>)
    requires Row(row, n)
    ensures Row(r, n)
  {
    seq(n, cpu requires 0 <= cpu < n && Row(row, n) => if 1 <= cpu <= k then And(row[cpu], Tests(n, k)) else One(n, cpu))
  }

  function AloneRow(row: seq<Mask>, n: nat, k: nat): (r: seq<Mask>)
    requires Row(row, n)
    ensures Row(r, n)
  {
    seq(n, cpu requires 0 <= cpu < n && Row(row, n) => if 1 <= cpu <= k then One(n, cpu) else row[cpu])
  }

  function Place(row: seq<Mask>, n: nat, group: Mask): (r: seq<Mask>)
    requires Row(row, n) && |group| == n
    ensures Row(r, n)
  {
    seq(n, cpu requires 0 <= cpu < n && Row(row, n) && |group| == n => if group[cpu] then group else row[cpu])
  }

  /** A cut partition is a partition. */
  lemma InitIsGood(row: seq<Mask>, n: nat, k: nat)
    requires Partition(row, n)
    ensures GoodRow(InitRow(row, n, k), n, k)
  {
    var r := InitRow(row, n, k);
    forall a, b | 0 <= a < n && 0 <= b < n && r[a][b]
      ensures r[a] == r[b]
    {
      assert 1 <= a <= k ==> row[a][b] && Tests(n, k)[b];
    }
  }

  lemma AloneIsGood(row: seq<Mask>, n: nat, k: nat)
    requires GoodRow(row, n, k)
    ensures GoodRow(AloneRow(row, n, k), n, k)
  {}

  /** Joining CPUs that were alone keeps a partition. */
  lemma PlaceIsGood(row: seq<Mask>, n: nat, k: nat, group: Mask)
    requires GoodRow(row, n, k) && |group| == n && TestCpus(group, k)
    requires forall c :: 0 <= c < n && group[c] ==> row[c] == One(n, c)
    ensures GoodRow(Place(row, n, group), n, k)
  {
    var r := Place(row, n, group);
    forall a, b | 0 <= a < n && 0 <= b < n && r[a][b]
      ensures r[a] == r[b]
    {
      if !group[a] {
        assert row[a] == row[b] && row[b][a];
        assert group[b] ==> row[b] == One(n, b);
      }
    }
  }

  // ---- the text ----

  function LevelOf(name: string): (level: int)
    ensures -1 <= level < LEVELS
  {
    if name == "SMT" then 0
    else if name == "CLS" then 1
    else if name == "MC" then 2
    else if name == "PKG" || name == "DIE" then 3
    else if name == "NODE" then 4
    else -1
  }

  const BAD_COUNT := "CPUS is not in 1..N-1"
  const BAD_ENTRY := "expected KEY=group|group"
  const BAD_KEY := "unknown key (a level, CAP or CPUS)"
  const BAD_CAP := "CAP groups are cpulist:scale"
  const BAD_SCALE := "capacity is not in 1..1024"
  const BAD_LIST := "bad cpulist: test CPUs 1..CPUS only"
  const TWICE := "a CPU is named twice under one key"

  /** The CPUs of one group and the scale it gives them (0 for a level's). */
  type Group = (Mask, int)

  datatype Key = Level(level: nat) | Cap | Count | Unknown

  function KeyOf(key: string): Key {
    if key == "CPUS" then Count
    else if key == "CAP" then Cap
    else if LevelOf(key) < 0 then Unknown
    else Level(LevelOf(key))
  }

  function ReadCpus(p: Parsers, n: nat, k: nat, list: string, scale: int, seen: Mask): Result<Group>
    requires ForMachine(p, n) && |seen| == n
  {
    var m := p.cpulist(list);
    if m.None? || !TestCpus(m.value, k) then Bad(BAD_LIST)
    else if Meets(m.value, seen) then Bad(TWICE)
    else Ok((m.value, scale))
  }

  function ReadGroup(p: Parsers, n: nat, k: nat, cap: bool, list: string, seen: Mask): Result<Group>
    requires ForMachine(p, n) && |seen| == n
  {
    if !cap then ReadCpus(p, n, k, list, 0, seen)
    else
      var i := IndexOf(list, ':');
      if i == |list| then Bad(BAD_CAP)
      else
        var scale := p.number(list[i + 1..]);
        if scale.None? || scale.value < 1 || scale.value > SCALE then Bad(BAD_SCALE)
        else ReadCpus(p, n, k, list[..i], scale.value, seen)
  }

  datatype Result<T> = Ok(value: T) | Bad(why: string)

  /** A key's groups up to the first that is wrong, and what is wrong with it. */
  function ReadGroups(p: Parsers, n: nat, k: nat, cap: bool, lists: seq<string>, seen: Mask): (r: (seq<Group>, Option<string>))
    requires ForMachine(p, n) && |seen| == n
  {
    if lists == [] then ([], None)
    else
      match ReadGroup(p, n, k, cap, lists[0], seen)
      case Bad(why) => ([], Some(why))
      case Ok(g) =>
        assert |g.0| == n;
        var (rest, err) := ReadGroups(p, n, k, cap, lists[1..], Or(seen, g.0));
        ([g] + rest, err)
  }

  /** What one entry of the spec asks for. */
  datatype Item = Nothing | Masks(level: nat, groups: seq<Group>) | Caps(groups: seq<Group>)

  function ReadEntry(p: Parsers, n: nat, k: nat, entry: string): (Item, Option<string>)
    requires ForMachine(p, n)
  {
    if entry == "" then (Nothing, None)
    else
      var i := IndexOf(entry, '=');
      if i == |entry| || i + 1 == |entry| then (Nothing, Some(BAD_ENTRY))
      else
        match KeyOf(entry[..i])
        case Count => (Nothing, None)
        case Unknown => (Nothing, Some(BAD_KEY))
        case Cap =>
          var (groups, err) := ReadGroups(p, n, k, true, Pieces(entry[i + 1..], '|'), One(n, -1));
          (Caps(groups), err)
        case Level(level) =>
          var (groups, err) := ReadGroups(p, n, k, false, Pieces(entry[i + 1..], '|'), One(n, -1));
          (Masks(level, groups), err)
  }

  /** A spec's entries up to the first that is wrong, that one as far as it was read. */
  function ReadSpec(p: Parsers, n: nat, k: nat, entries: seq<string>): (seq<Item>, Option<string>)
    requires ForMachine(p, n)
  {
    if entries == [] then ([], None)
    else
      var (item, err) := ReadEntry(p, n, k, entries[0]);
      if err.Some? then ([item], err)
      else
        var (rest, err') := ReadSpec(p, n, k, entries[1..]);
        ([item] + rest, err')
  }

  /** Groups as the reader lets them through: test CPUs, none of them twice. */
  predicate ValidGroups(groups: seq<Group>, n: nat, k: nat, seen: Mask)
    requires |seen| == n
  {
    groups == [] ||
    (var g := groups[0].0;
     |g| == n && TestCpus(g, k) && !Meets(g, seen) && ValidGroups(groups[1..], n, k, Or(seen, g)))
  }

  lemma {:induction false} ReadGroupsAreValid(p: Parsers, n: nat, k: nat, cap: bool, lists: seq<string>, seen: Mask)
    requires ForMachine(p, n) && |seen| == n
    ensures ValidGroups(ReadGroups(p, n, k, cap, lists, seen).0, n, k, seen)
    ensures cap ==> forall i :: 0 <= i < |ReadGroups(p, n, k, cap, lists, seen).0| ==>
      1 <= ReadGroups(p, n, k, cap, lists, seen).0[i].1 <= SCALE
    decreases |lists|
  {
    if lists != [] {
      var r := ReadGroup(p, n, k, cap, lists[0], seen);
      if r.Ok? {
        ReadGroupsAreValid(p, n, k, cap, lists[1..], Or(seen, r.value.0));
        var groups, rest := ReadGroups(p, n, k, cap, lists, seen).0, ReadGroups(p, n, k, cap, lists[1..], Or(seen, r.value.0)).0;
        assert groups[1..] == rest;
      }
    }
  }

  // ---- what the items do ----

  predicate GroupsFit(groups: seq<Group>, n: nat) { forall i :: 0 <= i < |groups| ==> |groups[i].0| == n }

  function PlaceAll(row: seq<Mask>, n: nat, groups: seq<Group>): (r: seq<Mask>)
    requires Row(row, n) && GroupsFit(groups, n)
    ensures Row(r, n)
    decreases |groups|
  {
    if groups == [] then row
    else Place(PlaceAll(row, n, groups[..|groups| - 1]), n, groups[|groups| - 1].0)
  }

  function SetScale(caps: seq<int>, g: Group): seq<int>
    requires |g.0| == |caps|
  {
    seq(|caps|, c requires 0 <= c < |caps| == |g.0| => if g.0[c] then g.1 else caps[c])
  }

  function SetScales(caps: seq<int>, groups: seq<Group>): (r: seq<int>)
    requires GroupsFit(groups, |caps|)
    ensures |r| == |caps|
    decreases |groups|
  {
    if groups == [] then caps else SetScale(SetScales(caps, groups[..|groups| - 1]), groups[|groups| - 1])
  }

  predicate Rows(rows: seq<seq<Mask>>, n: nat) { |rows| == LEVELS && forall l :: 0 <= l < LEVELS ==> Row(rows[l], n) }

  predicate ItemFits(item: Item, n: nat) {
    match item
    case Nothing => true
    case Masks(level, groups) => level < LEVELS && GroupsFit(groups, n)
    case Caps(groups) => GroupsFit(groups, n)
  }

  datatype Config = Config(rows: seq<seq<Mask>>, caps: seq<int>)

  predicate Fits(c: Config, n: nat) { Rows(c.rows, n) && |c.caps| == n }

  function Apply(c: Config, n: nat, k: nat, item: Item): (r: Config)
    requires Fits(c, n) && ItemFits(item, n)
    ensures Fits(r, n)
  {
    match item
    case Nothing => c
    case Masks(level, groups) => c.(rows := c.rows[level := PlaceAll(AloneRow(c.rows[level], n, k), n, groups)])
    case Caps(groups) => c.(caps := SetScales(c.caps, groups))
  }

  predicate ItemsFit(items: seq<Item>, n: nat) { forall i :: 0 <= i < |items| ==> ItemFits(items[i], n) }

  function ApplyAll(c: Config, n: nat, k: nat, items: seq<Item>): (r: Config)
    requires Fits(c, n) && ItemsFit(items, n)
    ensures Fits(r, n)
    decreases |items|
  {
    if items == [] then c else Apply(ApplyAll(c, n, k, items[..|items| - 1]), n, k, items[|items| - 1])
  }

  predicate ValidItem(item: Item, n: nat, k: nat) {
    match item
    case Nothing => true
    case Masks(level, groups) => level < LEVELS && ValidGroups(groups, n, k, One(n, -1))
    case Caps(groups) => ValidGroups(groups, n, k, One(n, -1))
  }

  predicate ValidItems(items: seq<Item>, n: nat, k: nat) { forall i :: 0 <= i < |items| ==> ValidItem(items[i], n, k) }

  lemma {:induction false} ValidGroupsFit(groups: seq<Group>, n: nat, k: nat, seen: Mask)
    requires |seen| == n && ValidGroups(groups, n, k, seen)
    ensures GroupsFit(groups, n)
    decreases |groups|
  {
    if groups != [] {
      ValidGroupsFit(groups[1..], n, k, Or(seen, groups[0].0));
      assert forall i :: 1 <= i < |groups| ==> groups[i] == groups[1..][i - 1];
    }
  }

  lemma {:induction false} ReadSpecIsValid(p: Parsers, n: nat, k: nat, entries: seq<string>)
    requires ForMachine(p, n)
    ensures ValidItems(ReadSpec(p, n, k, entries).0, n, k) && ItemsFit(ReadSpec(p, n, k, entries).0, n)
    decreases |entries|
  {
    if entries != [] {
      ReadEntryIsValid(p, n, k, entries[0]);
      ReadSpecIsValid(p, n, k, entries[1..]);
    }
  }

  lemma ReadEntryIsValid(p: Parsers, n: nat, k: nat, entry: string)
    requires ForMachine(p, n)
    ensures ValidItem(ReadEntry(p, n, k, entry).0, n, k) && ItemFits(ReadEntry(p, n, k, entry).0, n)
  {
    var i := IndexOf(entry, '=');
    if i + 1 < |entry| {
      var lists, cap := Pieces(entry[i + 1..], '|'), KeyOf(entry[..i]).Cap?;
      ReadGroupsAreValid(p, n, k, cap, lists, One(n, -1));
      ValidGroupsFit(ReadGroups(p, n, k, cap, lists, One(n, -1)).0, n, k, One(n, -1));
    }
  }

  // ---- every level stays a partition ----

  /** The CPUs of the first i groups. */
  predicate Among(groups: seq<Group>, c: nat) { exists i :: 0 <= i < |groups| && c < |groups[i].0| && groups[i].0[c] }

  predicate GroupsApart(groups: seq<Group>) {
    forall i, j, c :: 0 <= i < j < |groups| && 0 <= c < |groups[i].0| && c < |groups[j].0| && groups[i].0[c] ==> !groups[j].0[c]
  }

  lemma {:induction false} ValidGroupsApart(groups: seq<Group>, n: nat, k: nat, seen: Mask)
    requires |seen| == n && ValidGroups(groups, n, k, seen)
    ensures GroupsFit(groups, n) && GroupsApart(groups)
    ensures forall i :: 0 <= i < |groups| ==> TestCpus(groups[i].0, k) && !Meets(groups[i].0, seen)
    decreases |groups|
  {
    ValidGroupsFit(groups, n, k, seen);
    if groups != [] {
      var g, rest := groups[0].0, groups[1..];
      ValidGroupsApart(rest, n, k, Or(seen, g));
      forall i | 0 <= i < |groups|
        ensures TestCpus(groups[i].0, k) && !Meets(groups[i].0, seen)
        ensures i > 0 ==> !Meets(groups[i].0, g)
      {
        if i > 0 {
          NotInBoth(rest[i - 1].0, seen, g);
        }
      }
      forall i, j, c | 0 <= i < j < |groups| && 0 <= c < |groups[i].0| && c < |groups[j].0| && groups[i].0[c]
        ensures !groups[j].0[c]
      {
        if i > 0 {
          assert rest[i - 1].0[c];
          assert !rest[j - 1].0[c];
        }
      }
    }
  }

  lemma NotInBoth(g: Mask, a: Mask, b: Mask)
    requires |g| == |a| == |b| && !Meets(g, Or(a, b))
    ensures !Meets(g, a) && !Meets(g, b)
  {
    forall i | 0 <= i < |g| && g[i]
      ensures !a[i] && !b[i]
    {
      assert !Or(a, b)[i];
    }
  }

  lemma {:induction false} PlaceAllIs(row: seq<Mask>, n: nat, k: nat, groups: seq<Group>, c: nat)
    requires Row(row, n) && GroupsFit(groups, n) && GroupsApart(groups) && c < n
    ensures !Among(groups, c) ==> PlaceAll(row, n, groups)[c] == row[c]
    ensures forall i :: 0 <= i < |groups| && groups[i].0[c] ==> PlaceAll(row, n, groups)[c] == groups[i].0
    decreases |groups|
  {
    if groups != [] {
      var m := |groups| - 1;
      PlaceAllIs(row, n, k, groups[..m], c);
      assert Among(groups[..m], c) ==> Among(groups, c) by {
        if Among(groups[..m], c) {
          var i :| 0 <= i < m && c < |groups[..m][i].0| && groups[..m][i].0[c];
          assert groups[i].0[c];
        }
      }
      assert forall i :: 0 <= i < m ==> groups[..m][i] == groups[i];
    }
  }

  lemma {:induction false} PlaceAllIsGood(row: seq<Mask>, n: nat, k: nat, groups: seq<Group>)
    requires GoodRow(row, n, k) && GroupsFit(groups, n) && GroupsApart(groups)
    requires forall i :: 0 <= i < |groups| ==> TestCpus(groups[i].0, k)
    requires forall c :: 1 <= c <= k && c < n ==> row[c] == One(n, c)
    ensures GoodRow(PlaceAll(row, n, groups), n, k)
    decreases |groups|
  {
    if groups != [] {
      var m := |groups| - 1;
      var before, g := PlaceAll(row, n, groups[..m]), groups[m].0;
      PlaceAllIsGood(row, n, k, groups[..m]);
      forall c | 0 <= c < n && g[c]
        ensures before[c] == One(n, c)
      {
        PlaceAllIs(row, n, k, groups[..m], c);
      }
      PlaceIsGood(before, n, k, g);
    }
  }

  ghost predicate GoodRows(rows: seq<seq<Mask>>, inTable: seq<bool>, n: nat, k: nat)
    requires |rows| == |inTable| == LEVELS
  {
    forall l :: 0 <= l < LEVELS && inTable[l] ==> GoodRow(rows[l], n, k)
  }

  lemma ApplyKeepsGood(c: Config, inTable: seq<bool>, n: nat, k: nat, item: Item)
    requires Fits(c, n) && |inTable| == LEVELS && GoodRows(c.rows, inTable, n, k)
    requires ItemFits(item, n) && ValidItem(item, n, k)
    ensures GoodRows(Apply(c, n, k, item).rows, inTable, n, k)
  {
    if item.Masks? && inTable[item.level] {
      AloneIsGood(c.rows[item.level], n, k);
      ValidGroupsApart(item.groups, n, k, One(n, -1));
      PlaceAllIsGood(AloneRow(c.rows[item.level], n, k), n, k, item.groups);
    }
  }

  lemma {:induction false} ApplyAllKeepsGood(c: Config, inTable: seq<bool>, n: nat, k: nat, items: seq<Item>)
    requires Fits(c, n) && |inTable| == LEVELS && GoodRows(c.rows, inTable, n, k)
    requires ItemsFit(items, n) && ValidItems(items, n, k)
    ensures GoodRows(ApplyAll(c, n, k, items).rows, inTable, n, k)
    decreases |items|
  {
    if items != [] {
      var m := |items| - 1;
      ApplyAllKeepsGood(c, inTable, n, k, items[..m]);
      ApplyKeepsGood(ApplyAll(c, n, k, items[..m]), inTable, n, k, items[m]);
    }
  }

  // ---- what a spec means ----

  /** The mask that a level's groups give a CPU: its group, or itself alone. */
  predicate GroupedAs(groups: seq<Group>, n: nat, c: nat, mask: Mask)
    requires GroupsFit(groups, n) && c < n
  {
    if Among(groups, c) then exists i :: 0 <= i < |groups| && groups[i].0[c] && mask == groups[i].0
    else mask == One(n, c)
  }

  /** No item after i speaks of the level. */
  predicate LastFor(items: seq<Item>, level: nat, i: nat) {
    && i < |items| && items[i].Masks? && items[i].level == level
    && forall j :: i < j < |items| ==> !(items[j].Masks? && items[j].level == level)
  }

  predicate Named(items: seq<Item>, level: nat) { exists i :: 0 <= i < |items| && items[i].Masks? && items[i].level == level }

  /** A level not named keeps its row. */
  lemma {:induction false} UnnamedKeeps(c: Config, n: nat, k: nat, items: seq<Item>, level: nat)
    requires Fits(c, n) && ItemsFit(items, n) && level < LEVELS && !Named(items, level)
    ensures ApplyAll(c, n, k, items).rows[level] == c.rows[level]
    decreases |items|
  {
    if items != [] {
      var m := |items| - 1;
      assert forall i :: 0 <= i < m ==> items[..m][i] == items[i];
      UnnamedKeeps(c, n, k, items[..m], level);
    }
  }

  /** A level named has for each test CPU what its last occurrence says. */
  lemma {:induction false} LastOccurrenceWins(c: Config, n: nat, k: nat, items: seq<Item>, level: nat, cpu: nat, i: nat)
    requires Fits(c, n) && ItemsFit(items, n) && ValidItems(items, n, k) && level < LEVELS && 1 <= cpu <= k && cpu < n
    requires LastFor(items, level, i)
    ensures GroupedAs(items[i].groups, n, cpu, ApplyAll(c, n, k, items).rows[level][cpu])
    decreases |items|
  {
    var m := |items| - 1;
    if i == m {
      var before, groups := ApplyAll(c, n, k, items[..m]), items[m].groups;
      ValidGroupsApart(groups, n, k, One(n, -1));
      PlaceAllIs(AloneRow(before.rows[level], n, k), n, k, groups, cpu);
    } else {
      assert LastFor(items[..m], level, i);
      LastOccurrenceWins(c, n, k, items[..m], level, cpu, i);
    }
  }

  /** Item i is the last to name the CPU under CAP, and it gives it scale. */
  predicate LastScale(items: seq<Item>, cpu: nat, i: nat, scale: int) {
    && i < |items| && items[i].Caps? && Gives(items[i].groups, cpu, scale)
    && forall j :: i < j < |items| && items[j].Caps? ==> !Among(items[j].groups, cpu)
  }

  predicate Gives(groups: seq<Group>, cpu: nat, scale: int) {
    exists g :: 0 <= g < |groups| && cpu < |groups[g].0| && groups[g].0[cpu] && groups[g].1 == scale
  }

  predicate Scaled(items: seq<Item>, cpu: nat) { exists i :: 0 <= i < |items| && items[i].Caps? && Among(items[i].groups, cpu) }

  lemma {:induction false} SetScalesIs(caps: seq<int>, groups: seq<Group>, cpu: nat)
    requires GroupsFit(groups, |caps|) && GroupsApart(groups) && cpu < |caps|
    ensures if Among(groups, cpu) then Gives(groups, cpu, SetScales(caps, groups)[cpu]) else SetScales(caps, groups)[cpu] == caps[cpu]
    ensures forall scale :: Gives(groups, cpu, scale) ==> SetScales(caps, groups)[cpu] == scale
    decreases |groups|
  {
    if groups != [] {
      var m := |groups| - 1;
      SetScalesIs(caps, groups[..m], cpu);
      assert forall i :: 0 <= i < m ==> groups[..m][i] == groups[i];
      if groups[m].0[cpu] {
        assert Among(groups, cpu) && Gives(groups, cpu, groups[m].1);
      } else {
        AmongFirst(groups, cpu);
      }
    }
  }

  lemma AmongFirst(groups: seq<Group>, cpu: nat)
    requires groups != [] && !(cpu < |groups[|groups| - 1].0| && groups[|groups| - 1].0[cpu])
    ensures Among(groups, cpu) <==> Among(groups[..|groups| - 1], cpu)
    ensures forall scale :: Gives(groups, cpu, scale) <==> Gives(groups[..|groups| - 1], cpu, scale)
  {
    var m := |groups| - 1;
    assert forall i :: 0 <= i < m ==> groups[..m][i] == groups[i];
    if Among(groups, cpu) {
      var i :| 0 <= i < |groups| && cpu < |groups[i].0| && groups[i].0[cpu];
      assert groups[..m][i].0[cpu];
    }
    forall scale
      ensures Gives(groups, cpu, scale) <==> Gives(groups[..m], cpu, scale)
    {
      if Gives(groups, cpu, scale) {
        var g :| 0 <= g < |groups| && cpu < |groups[g].0| && groups[g].0[cpu] && groups[g].1 == scale;
        assert groups[..m][g].1 == scale;
      }
    }
  }

  /** A CPU that no CAP names keeps its capacity. */
  lemma {:induction false} UnscaledKeeps(c: Config, n: nat, k: nat, items: seq<Item>, cpu: nat)
    requires Fits(c, n) && ItemsFit(items, n) && ValidItems(items, n, k) && cpu < n && !Scaled(items, cpu)
    ensures ApplyAll(c, n, k, items).caps[cpu] == c.caps[cpu]
    decreases |items|
  {
    if items != [] {
      var m := |items| - 1;
      assert forall i :: 0 <= i < m ==> items[..m][i] == items[i];
      UnscaledKeeps(c, n, k, items[..m], cpu);
      if items[m].Caps? {
        ValidGroupsApart(items[m].groups, n, k, One(n, -1));
        SetScalesIs(ApplyAll(c, n, k, items[..m]).caps, items[m].groups, cpu);
      }
    }
  }

  /** A CPU that some CAP names has the last scale to name it. */
  lemma {:induction false} LastScaleWins(c: Config, n: nat, k: nat, items: seq<Item>, cpu: nat, i: nat, scale: int)
    requires Fits(c, n) && ItemsFit(items, n) && ValidItems(items, n, k) && cpu < n && LastScale(items, cpu, i, scale)
    ensures ApplyAll(c, n, k, items).caps[cpu] == scale
    decreases |items|
  {
    var m := |items| - 1;
    var before := ApplyAll(c, n, k, items[..m]);
    if items[m].Caps? {
      ValidGroupsApart(items[m].groups, n, k, One(n, -1));
      SetScalesIs(before.caps, items[m].groups, cpu);
    }
    if i < m {
      assert LastScale(items[..m], cpu, i, scale);
      LastScaleWins(c, n, k, items[..m], cpu, i, scale);
    }
  }
}
