/** kstep_topo_set as it is written (kmod/cpu.c): cursors through the text, masks and capacities overwritten
    one CPU at a time. */
module TopologyKernel {
  import opened Ring
  import opened Text
  import opened Topology
  import opened TopologySet

  /** The pieces that strsep has still to give. */
  function Rest(cursor: Option<string>, c: char): seq<string> {
    if cursor.None? then [] else Pieces(cursor.value, c)
  }

  method Strsep(s: string, c: char) returns (piece: string, rest: Option<string>)
    ensures Pieces(s, c) == [piece] + Rest(rest, c)
    ensures rest.Some? ==> |rest.value| < |s|
    ensures piece == s[..IndexOf(s, c)] && (rest.None? <==> IndexOf(s, c) == |s|)
    ensures rest.Some? ==> rest.value == s[IndexOf(s, c) + 1..]
  {
    var i := IndexOf(s, c);
    piece := s[..i];
    assert i == |s| ==> piece == s;
    rest := if i == |s| then None else Some(s[i + 1..]);
  }

  function Size(cursor: Option<string>): nat { if cursor.None? then 0 else |cursor.value| + 1 }

  /** What a key's loop has done so far, and what is left of its text, together are what the text asks for. */
  ghost predicate Reading(p: Parsers, n: nat, k: nat, cap: bool, all: seq<string>, done: seq<Group>, left: seq<string>, seen: Mask)
    requires ForMachine(p, n)
  {
    && |seen| == n && GroupsFit(done, n)
    && ReadGroups(p, n, k, cap, all, One(n, -1)).0 == done + ReadGroups(p, n, k, cap, left, seen).0
    && ReadGroups(p, n, k, cap, all, One(n, -1)).1 == ReadGroups(p, n, k, cap, left, seen).1
  }

  lemma ReadOn(p: Parsers, n: nat, k: nat, cap: bool, all: seq<string>, done: seq<Group>, left: seq<string>, seen: Mask)
    requires ForMachine(p, n) && Reading(p, n, k, cap, all, done, left, seen) && left != []
    ensures var r := ReadGroup(p, n, k, cap, left[0], seen);
      if r.Ok? then |r.value.0| == n && Reading(p, n, k, cap, all, done + [r.value], left[1..], Or(seen, r.value.0))
      else ReadGroups(p, n, k, cap, all, One(n, -1)) == (done, Some(r.why))
  {
    var r := ReadGroup(p, n, k, cap, left[0], seen);
    if r.Ok? {
      var rest := ReadGroups(p, n, k, cap, left[1..], Or(seen, r.value.0)).0;
      assert done + ([r.value] + rest) == (done + [r.value]) + rest;
    } else {
      assert done + [] == done;
    }
  }

  class Topo {
    const p: Parsers
    const n: nat
    const inTable: seq<bool>
    const own: seq<seq<Mask>>
    var k: nat
    var ours: bool
    const rows: array<seq<Mask>>
    var caps: seq<int>
    var siblings: seq<Mask>
    var rebuilds: nat

    ghost predicate Valid()
      reads this, rows
    {
      && rows.Length == LEVELS && ForMachine(p, n)
      && Shape(Machine(n, inTable, own, k, ours, rows[..], caps, siblings, rebuilds))
    }

    ghost function View(): Machine
      reads this, rows
    {
      Machine(n, inTable, own, k, ours, rows[..], caps, siblings, rebuilds)
    }

    /** The machine as it boots: every CPU but the controller's a test CPU, on topology of its own. */
    constructor (p: Parsers, n: nat, inTable: seq<bool>, own: seq<seq<Mask>>)
      requires 0 < n && ForMachine(p, n) && |inTable| == LEVELS && Rows(own, n)
      ensures Valid() && fresh(rows) && !ours && k == n - 1
      ensures this.p == p && this.n == n && this.inTable == inTable && this.own == own
      ensures (forall l :: 0 <= l < LEVELS && inTable[l] ==> Partition(own[l], n)) ==> Good(View())
    {
      this.p, this.n, this.inTable, this.own := p, n, inTable, own;
      k, ours, rebuilds := n - 1, false, 0;
      rows := new seq<Mask>[LEVELS](_ => seq(n, _ => seq(n, _ => false)));
      caps, siblings := Uniform(n), seq(n, _ => seq(n, _ => false));
    }

    /** topo_cpus. */
    method TopoCpus(spec: string) returns (count: Option<nat>)
      requires n > 0
      ensures count == CpuCount(p, n, Entries(spec), n - 1)
    {
      var cursor, c: nat := Some(Fitted(spec)), n - 1;
      while cursor.Some?
        invariant CpuCount(p, n, Entries(spec), n - 1) == CpuCount(p, n, Rest(cursor, ';'), c)
        decreases Size(cursor)
      {
        var entry;
        entry, cursor := Strsep(cursor.value, ';');
        if !SaysCount(entry) {
          continue;
        }
        var x := p.number(entry[5..]);
        if x.None? || x.value < 1 || x.value > n - 1 {
          return None;
        }
        c := x.value;
      }
      count := Some(c);
    }

    method InitLevel(level: nat)
      requires Valid() && level < LEVELS
      modifies rows
      ensures Valid() && rows[..] == old(rows[..])[level := InitRow(Source(old(View()), level), n, k)]
    {
      ghost var source := Source(View(), level);
      for cpu := 0 to n
        invariant Valid() && rows[..] == old(rows[..])[level := rows[level]]
        invariant forall c :: 0 <= c < cpu ==> rows[level][c] == InitRow(source, n, k)[c]
        invariant forall c :: cpu <= c < n ==> rows[level][c] == old(rows[level])[c]
      {
        var mask := One(n, cpu);
        if 1 <= cpu <= k {
          mask := And(if ours then rows[level][cpu] else own[level][cpu], Tests(n, k));
        }
        rows[level] := rows[level][cpu := mask];
      }
      assert rows[level] == InitRow(source, n, k);
    }

    /** topo_init. */
    method TopoInit()
      requires Valid()
      modifies rows, this`ours
      ensures Valid() && ours && rows[..] == InitRows(old(View()), k)
    {
      ghost var was := View();
      for level := 0 to LEVELS
        invariant Valid() && ours == old(ours)
        invariant forall l :: 0 <= l < level ==> rows[l] == InitRows(was, k)[l]
        invariant forall l :: level <= l < LEVELS ==> rows[l] == old(rows[l])
      {
        if inTable[level] {
          InitLevel(level);
        }
      }
      ours := true;
    }

    method PlaceGroup(level: nat, group: Mask)
      requires Valid() && level < LEVELS && |group| == n
      modifies rows
      ensures Valid() && rows[..] == old(rows[..])[level := Place(old(rows[level]), n, group)]
    {
      for cpu := 0 to n
        invariant Valid() && rows[..] == old(rows[..])[level := rows[level]]
        invariant forall c :: 0 <= c < cpu ==> rows[level][c] == Place(old(rows[level]), n, group)[c]
        invariant forall c :: cpu <= c < n ==> rows[level][c] == old(rows[level])[c]
      {
        if group[cpu] {
          rows[level] := rows[level][cpu := group];
        }
      }
      assert rows[level] == Place(old(rows[level]), n, group);
    }

    method LeaveAlone(level: nat)
      requires Valid() && level < LEVELS
      modifies rows
      ensures Valid() && rows[..] == old(rows[..])[level := AloneRow(old(rows[level]), n, k)]
    {
      for cpu := 1 to k + 1
        invariant Valid() && rows[..] == old(rows[..])[level := rows[level]]
        invariant forall c :: 0 <= c < n && (1 <= c < cpu) ==> rows[level][c] == One(n, c)
        invariant forall c :: 0 <= c < n && !(1 <= c < cpu) ==> rows[level][c] == old(rows[level])[c]
      {
        rows[level] := rows[level][cpu := One(n, cpu)];
      }
      assert rows[level] == AloneRow(old(rows[level]), n, k);
    }

    /** A level's groups into its masks: the half of topo_set_key that is not CAP. */
    method SetLevel(level: nat, groups: string) returns (err: Option<string>)
      requires Valid() && level < LEVELS
      modifies rows
      ensures Valid()
      ensures var (gs, e) := ReadGroups(p, n, k, false, Pieces(groups, '|'), One(n, -1));
        GroupsFit(gs, n) && err == e
        && rows[..] == old(rows[..])[level := PlaceAll(AloneRow(old(rows[level]), n, k), n, gs)]
    {
      LeaveAlone(level);
      ghost var start, all, done := rows[level], Pieces(groups, '|'), [];
      var cursor, seen := Some(groups), One(n, -1);
      assert [] + ReadGroups(p, n, k, false, all, seen).0 == ReadGroups(p, n, k, false, all, seen).0;
      while cursor.Some?
        invariant Valid() && Reading(p, n, k, false, all, done, Rest(cursor, '|'), seen)
        invariant rows[..] == old(rows[..])[level := PlaceAll(start, n, done)]
        decreases Size(cursor)
      {
        ReadOn(p, n, k, false, all, done, Rest(cursor, '|'), seen);
        var list;
        list, cursor := Strsep(cursor.value, '|');
        var group := ReadGroup(p, n, k, false, list, seen);
        if group.Bad? {
          return Some(group.why);
        }
        seen := Or(seen, group.value.0);
        PlaceGroup(level, group.value.0);
        assert (done + [group.value])[..|done|] == done;
        done := done + [group.value];
      }
      assert done + [] == done;
      err := None;
    }

    /** And the half that is. */
    method SetCaps(groups: string, scales: array<int>) returns (err: Option<string>)
      requires Valid() && scales.Length == n
      modifies scales
      ensures var (gs, e) := ReadGroups(p, n, k, true, Pieces(groups, '|'), One(n, -1));
        GroupsFit(gs, n) && err == e && scales[..] == SetScales(old(scales[..]), gs)
    {
      ghost var start, all, done := scales[..], Pieces(groups, '|'), [];
      var cursor, seen := Some(groups), One(n, -1);
      assert [] + ReadGroups(p, n, k, true, all, seen).0 == ReadGroups(p, n, k, true, all, seen).0;
      while cursor.Some?
        invariant Reading(p, n, k, true, all, done, Rest(cursor, '|'), seen)
        invariant scales[..] == SetScales(start, done)
        decreases Size(cursor)
      {
        ReadOn(p, n, k, true, all, done, Rest(cursor, '|'), seen);
        var list;
        list, cursor := Strsep(cursor.value, '|');
        var group := ReadGroup(p, n, k, true, list, seen);
        if group.Bad? {
          return Some(group.why);
        }
        seen := Or(seen, group.value.0);
        ScaleGroup(group.value, scales);
        assert (done + [group.value])[..|done|] == done;
        done := done + [group.value];
      }
      assert done + [] == done;
      err := None;
    }

    static method ScaleGroup(g: Group, scales: array<int>)
      requires |g.0| == scales.Length
      modifies scales
      ensures scales[..] == SetScale(old(scales[..]), g)
    {
      for cpu := 0 to scales.Length
        invariant forall c :: 0 <= c < cpu ==> scales[c] == SetScale(old(scales[..]), g)[c]
        invariant forall c :: cpu <= c < scales.Length ==> scales[c] == old(scales[c])
      {
        if g.0[cpu] {
          scales[cpu] := g.1;
        }
      }
    }
  
    /** One entry of a spec. */
    method SetEntry(entry: string, scales: array<int>) returns (err: Option<string>)
      requires Valid() && scales.Length == n
      modifies rows, scales
      ensures Valid()
      ensures var (item, e) := ReadEntry(p, n, k, entry);
        ItemFits(item, n) && err == e && Config(rows[..], scales[..]) == Apply(old(Config(rows[..], scales[..])), n, k, item)
    {
      ReadEntryIsValid(p, n, k, entry);
      if entry == "" {
        return None;
      }
      var key, groups := Strsep(entry, '=');
      if groups.None? || groups.value == "" {
        return Some(BAD_ENTRY);
      }
      match KeyOf(key) {
        case Count =>
          err := None;
        case Unknown =>
          err := Some(BAD_KEY);
        case Cap =>
          err := SetCaps(groups.value, scales);
        case Level(level) =>
          err := SetLevel(level, groups.value);
      }
    }

    /** The rest of the spec, entry by entry, up to the first that is wrong. */
    method SetEntries(spec: string, scales: array<int>) returns (err: Option<string>)
      requires Valid() && scales.Length == n
      modifies rows, scales
      ensures Valid()
      ensures var (items, e) := ReadSpec(p, n, k, Entries(spec));
        ItemsFit(items, n) && err == e && Config(rows[..], scales[..]) == ApplyAll(old(Config(rows[..], scales[..])), n, k, items)
    {
      ghost var start, all, done := Config(rows[..], scales[..]), Entries(spec), [];
      ReadSpecIsValid(p, n, k, all);
      assert [] + ReadSpec(p, n, k, all).0 == ReadSpec(p, n, k, all).0;
      var cursor := Some(Fitted(spec));
      while cursor.Some?
        invariant Valid() && Going(p, n, k, all, done, Rest(cursor, ';'))
        invariant Config(rows[..], scales[..]) == ApplyAll(start, n, k, done)
        decreases Size(cursor)
      {
        GoOn(p, n, k, all, done, Rest(cursor, ';'));
        var entry;
        entry, cursor := Strsep(cursor.value, ';');
        ghost var item := ReadEntry(p, n, k, entry).0;
        err := SetEntry(entry, scales);
        assert (done + [item])[..|done|] == done;
        if err.Some? {
          return;
        }
        done := done + [item];
      }
      assert done + [] == done;
      err := None;
    }

    /** What an accepted spec does to the kernel. */
    method Commit(scales: array<int>)
      requires Valid() && scales.Length == n
      modifies this`caps, this`siblings, this`rebuilds
      ensures Valid() && caps == Committed(old(caps), scales[..], k)
      ensures siblings == rows[SMT] && rebuilds == old(rebuilds) + 1
    {
      ghost var was := caps;
      for cpu := 1 to k + 1
        invariant Valid() && siblings == old(siblings) && rebuilds == old(rebuilds)
        invariant forall c :: 0 <= c < n ==> caps[c] == if 1 <= c < cpu then scales[c] else was[c]
      {
        caps := caps[cpu := scales[cpu]];
      }
      siblings := rows[SMT];
      rebuilds := rebuilds + 1;
    }

    method Resize(count: nat)
      requires Valid() && count < n
      modifies this`k, this`ours, rows
      ensures Valid() && View() == old(View()).(k := count, ours := true, rows := InitRows(old(View()), count))
    {
      k := count;
      TopoInit();
    }

    /** kstep_topo_set. */
    method Set(spec: string) returns (err: Option<string>)
      requires Valid()
      modifies this`k, this`ours, this`caps, this`siblings, this`rebuilds, rows
      ensures Valid()
      ensures (View(), err) == AfterSet(p, old(View()), spec)
    {
      var count := TopoCpus(spec);
      if count.None? {
        return Some(BAD_COUNT);
      }
      CpuCountInRange(p, n, Entries(spec), n - 1);
      var scales;
      err, scales := Interpret(count.value, spec);
      if err.None? {
        Commit(scales);
      }
    }

    method Interpret(count: nat, spec: string) returns (err: Option<string>, scales: array<int>)
      requires Valid() && count < n
      modifies this`k, this`ours, rows
      ensures Valid() && k == count && ours && fresh(scales) && scales.Length == n
      ensures (Config(rows[..], scales[..]), err) == Interpreted(p, old(View()), count, Entries(spec))
    {
      Resize(count);
      scales := new int[n](_ => SCALE);
      assert scales[..] == Uniform(n);
      err := SetEntries(spec, scales);
    }
  }

  ghost predicate Going(p: Parsers, n: nat, k: nat, all: seq<string>, done: seq<Item>, left: seq<string>)
    requires ForMachine(p, n)
  {
    && ItemsFit(done, n)
    && ReadSpec(p, n, k, all).0 == done + ReadSpec(p, n, k, left).0
    && ReadSpec(p, n, k, all).1 == ReadSpec(p, n, k, left).1
  }

  lemma GoOn(p: Parsers, n: nat, k: nat, all: seq<string>, done: seq<Item>, left: seq<string>)
    requires ForMachine(p, n) && Going(p, n, k, all, done, left) && left != []
    ensures var (item, err) := ReadEntry(p, n, k, left[0]);
      && ItemFits(item, n)
      && if err.Some? then ReadSpec(p, n, k, all) == (done + [item], err) else Going(p, n, k, all, done + [item], left[1..])
  {
    var item := ReadEntry(p, n, k, left[0]).0;
    ReadEntryIsValid(p, n, k, left[0]);
    var rest := ReadSpec(p, n, k, left[1..]).0;
    assert done + ([item] + rest) == (done + [item]) + rest;
  }
}
